/** Cancellations over time: jobs are handed out again and again, clients cancel them in two reads,
    and runtimes sweep what they run. */
module CancelRuns {
  import opened JobId
  import opened Cancellation

  /** One delivery of one job. */
  datatype Handed = Handed(job: NamedJob, started: nat)

  /** `handed` is every delivery there ever was, in order, and a delivery is known by its place in
      it; `started` counts them per job; `reading` are cancellations that read a job's count and not
      yet its state; `asked` the deliveries a mark was ever written for; `aborted` those aborted. */
  datatype State = State(
    handed: seq<Handed>, started: map<NamedJob, nat>, active: set<NamedJob>, marks: Marks,
    reading: set<Handed>, asked: set<Handed>, aborted: set<nat>)

  const INIT := State([], map[], {}, map[], {}, {}, {})

  datatype Action =
    | HandOut(job: NamedJob)
    | LeavesActive(job: NamedJob)
    | CancelReads(job: NamedJob)
    | CancelChecks(read: Handed)
    | Sweep(queue: string, running: seq<nat>)
    | MarkExpires(job: NamedJob)

  function StartedOf(s: State, job: NamedJob): nat {
    if job in s.started then s.started[job] else 0
  }

  predicate Enabled(s: State, a: Action) {
    match a
    case HandOut(_) => true
    case LeavesActive(_) => true
    case CancelReads(_) => true
    case CancelChecks(read) => read in s.reading
    case Sweep(queue, running) =>
      forall i | 0 <= i < |running| :: running[i] < |s.handed| && s.handed[running[i]].job.queue == queue
    case MarkExpires(_) => true
  }

  function Asks(s: State, running: seq<nat>): seq<Delivery>
    requires forall i | 0 <= i < |running| :: running[i] < |s.handed|
  {
    seq(|running|, i requires 0 <= i < |running| =>
      Delivery(s.handed[running[i]].job.storedId, s.handed[running[i]].started))
  }

  function Do(s: State, a: Action): State {
    if !Enabled(s, a) then s
    else match a
      case HandOut(job) =>
        var n := StartedOf(s, job) + 1;
        s.(handed := s.handed + [Handed(job, n)], started := s.started[job := n], active := s.active + {job})
      case LeavesActive(job) => s.(active := s.active - {job})
      case CancelReads(job) => s.(reading := s.reading + {Handed(job, StartedOf(s, job))})
      case CancelChecks(read) =>
        var s' := s.(reading := s.reading - {read});
        if read.job in s.active
        then s'.(marks := s.marks[read.job := read.started], asked := s.asked + {read})
        else s'
      case Sweep(queue, running) =>
        var asks := Asks(s, running);
        var taken := Taken(s.marks, queue, asks);
        s.(marks := Left(s.marks, queue, asks),
           aborted := s.aborted + set i | 0 <= i < |running| && asks[i] in taken :: running[i])
      case MarkExpires(job) => s.(marks := s.marks - {job})
  }

  function Exec(s: State, actions: seq<Action>): State
    decreases actions
  {
    if actions == [] then s else Exec(Do(s, actions[0]), actions[1..])
  }

  predicate Inv(s: State) {
    && (forall i, j | 0 <= i < j < |s.handed| :: s.handed[i] != s.handed[j])
    && (forall i | 0 <= i < |s.handed| :: s.handed[i].started <= StartedOf(s, s.handed[i].job))
    && (forall job | job in s.marks :: Handed(job, s.marks[job]) in s.asked)
    && (forall i | i in s.aborted :: i < |s.handed| && s.handed[i] in s.asked)
    && (forall r | r in s.reading + s.asked :: r.started <= StartedOf(s, r.job))
  }

  lemma SweepKeepsInv(s: State, queue: string, running: seq<nat>)
    requires Inv(s) && Enabled(s, Sweep(queue, running))
    ensures Inv(Do(s, Sweep(queue, running)))
  {
    var asks := Asks(s, running);
    forall job | job in Left(s.marks, queue, asks)
      ensures job in s.marks && s.marks[job] == Left(s.marks, queue, asks)[job]
    {
      LeftIff(s.marks, queue, asks, job);
    }
    forall i | 0 <= i < |running| && asks[i] in Taken(s.marks, queue, asks) ensures s.handed[running[i]] in s.asked {
      TakenIff(s.marks, queue, asks, asks[i]);
      assert asks[i] in multiset(Taken(s.marks, queue, asks));
      assert NamedJob(queue, asks[i].id) == s.handed[running[i]].job;
    }
  }

  /** A sweep aborts exactly those of its deliveries that a mark names, and takes exactly those marks. */
  lemma SweepAbortsIff(s: State, queue: string, running: seq<nat>, i: nat, job: NamedJob)
    requires Enabled(s, Sweep(queue, running)) && i < |s.handed|
    ensures var s' := Do(s, Sweep(queue, running));
            && (i in s'.aborted <==>
                  || i in s.aborted
                  || (i in running && s.handed[i].job in s.marks && s.marks[s.handed[i].job] == s.handed[i].started))
            && (job in s'.marks <==>
                  job in s.marks && !exists k | 0 <= k < |running| :: s.handed[running[k]] == Handed(job, s.marks[job]))
  {
    var asks := Asks(s, running);
    forall k | 0 <= k < |running|
      ensures asks[k] in Taken(s.marks, queue, asks) <==> Named(s.marks, queue, asks[k])
    {
      TakenIff(s.marks, queue, asks, asks[k]);
      assert asks[k] in asks;
      assert asks[k] in Taken(s.marks, queue, asks) <==> multiset(Taken(s.marks, queue, asks))[asks[k]] > 0;
    }
    LeftIff(s.marks, queue, asks, job);
    if job in s.marks { AskedIff(s, queue, running, Handed(job, s.marks[job])); }
  }

  /** A job that has left the running ones between the two reads is not marked; and a mark that expired aborts
      nothing. */
  lemma NothingToCancel(s: State, job: NamedJob, queue: string, running: seq<nat>, i: nat)
    ensures var read := Handed(job, StartedOf(s, job));
            var s' := Do(Do(Do(s, CancelReads(job)), LeavesActive(job)), CancelChecks(read));
            s'.marks == s.marks && s'.asked == s.asked && job !in s'.active
    ensures var s' := Do(s, MarkExpires(job));
            Enabled(s', Sweep(queue, running)) && i < |s.handed| && s.handed[i].job == job ==>
              (i in Do(s', Sweep(queue, running)).aborted <==> i in s.aborted)
  {
    var s' := Do(s, MarkExpires(job));
    if Enabled(s', Sweep(queue, running)) && i < |s.handed| {
      SweepAbortsIff(s', queue, running, i, job);
    }
  }

  lemma AskedIff(s: State, queue: string, running: seq<nat>, h: Handed)
    requires Enabled(s, Sweep(queue, running))
    ensures h.job.queue == queue && Delivery(h.job.storedId, h.started) in Asks(s, running) <==>
            exists k | 0 <= k < |running| :: s.handed[running[k]] == h
  {
    var asks, d := Asks(s, running), Delivery(h.job.storedId, h.started);
    if h.job.queue == queue && d in asks {
      var k :| 0 <= k < |asks| && asks[k] == d;
      assert s.handed[running[k]] == h;
    }
    if k :| 0 <= k < |running| && s.handed[running[k]] == h {
      assert asks[k] == d;
    }
  }

  lemma HandOutKeepsInv(s: State, job: NamedJob)
    requires Inv(s)
    ensures Inv(Do(s, HandOut(job)))
  {
    var s' := Do(s, HandOut(job));
    assert forall i | 0 <= i < |s.handed| :: s'.handed[i] == s.handed[i];
    assert forall i | 0 <= i < |s.handed| :: s.handed[i] != Handed(job, StartedOf(s, job) + 1);
    assert forall other :: StartedOf(s, other) <= StartedOf(s', other);
  }

  lemma StepKeepsInv(s: State, a: Action)
    requires Inv(s)
    ensures Inv(Do(s, a))
  {
    if Enabled(s, a) {
      match a
      case HandOut(job) => HandOutKeepsInv(s, job);
      case Sweep(queue, running) => SweepKeepsInv(s, queue, running);
      case _ => assert forall job :: StartedOf(Do(s, a), job) == StartedOf(s, job);
    }
  }

  lemma {:induction false} EveryRunKeepsInv(s: State, actions: seq<Action>)
    requires Inv(s)
    ensures Inv(Exec(s, actions))
    decreases actions
  {
    if actions != [] {
      StepKeepsInv(s, actions[0]);
      EveryRunKeepsInv(Do(s, actions[0]), actions[1..]);
    }
  }

  /** In every run, whichever runtimes sweep whichever of their deliveries, an aborted delivery is
      one a cancellation was asked against, and the only delivery that cancellation names: a mark
      that outlives its delivery reaches no later delivery of the job, a redelivery after a dead
      worker included. */
  lemma OnlyTheCancelledDeliveryIsAborted(actions: seq<Action>, i: nat)
    requires i in Exec(INIT, actions).aborted
    ensures var s := Exec(INIT, actions);
            && i < |s.handed| && s.handed[i] in s.asked
            && forall j | 0 <= j < |s.handed| && s.handed[j] == s.handed[i] :: j == i
  {
    EveryRunKeepsInv(INIT, actions);
  }

  // ---------------------------------------------------------------- a cancellation is two reads

  function HandedOut(actions: seq<Action>, job: NamedJob): nat {
    if actions == [] then 0
    else (if actions[0] == HandOut(job) then 1 else 0) + HandedOut(actions[1..], job)
  }

  lemma {:induction false} StartedCountsHandOuts(s: State, actions: seq<Action>, job: NamedJob)
    ensures StartedOf(Exec(s, actions), job) == StartedOf(s, job) + HandedOut(actions, job)
    decreases actions
  {
    if actions != [] {
      StartedCountsHandOuts(Do(s, actions[0]), actions[1..], job);
    }
  }

  /** `cancel` reads the count before it reads the state. The mark it then writes names the delivery
      running at that moment exactly when the job was not handed out between the two reads; when it
      was, the answer is `aborting` and the mark names a delivery that came before. */
  lemma MarkNamesTheRunningDeliveryIff(s: State, job: NamedJob, between: seq<Action>)
    requires var mid := Exec(Do(s, CancelReads(job)), between);
             job in mid.active && Handed(job, StartedOf(s, job)) in mid.reading
    ensures var mid := Exec(Do(s, CancelReads(job)), between);
            var s' := Do(mid, CancelChecks(Handed(job, StartedOf(s, job))));
            && job in s'.marks
            && (s'.marks[job] == StartedOf(s', job) <==> HandedOut(between, job) == 0)
            && s'.marks[job] <= StartedOf(s', job)
  {
    StartedCountsHandOuts(Do(s, CancelReads(job)), between, job);
  }

  /** It happens to every job: handed out between the two reads, it is active, and the mark its canceller
      was answered `aborting` for names a delivery there never was. */
  lemma StaleMarkIsWritten(job: NamedJob)
    ensures var s := Exec(INIT, [CancelReads(job), HandOut(job), CancelChecks(Handed(job, 0))]);
            && job in s.active && StartedOf(s, job) == 1 && s.handed == [Handed(job, 1)]
            && job in s.marks && s.marks[job] == 0
  {
    var read, out, check := CancelReads(job), HandOut(job), CancelChecks(Handed(job, 0));
    var s1 := Do(INIT, read);
    var s2 := Do(s1, out);
    var s3 := Do(s2, check);
    assert [read, out, check][1..] == [out, check] && [out, check][1..] == [check] && [check][1..] == [];
    assert Exec(s3, []) == s3;
    assert Exec(s2, [check]) == Exec(s3, []);
    assert Exec(s1, [out, check]) == Exec(s2, [check]);
  }
}
