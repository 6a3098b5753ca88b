/** The driver tests run on: two lists of job objects changed in place, and jobs run inline. */
module MemoryDriver {
  import opened Errors
  import opened JobId
  import opened Definition
  import C = Cancellation
  import D = Dead
  import Outbox

  datatype JobState = Waiting | Active | Completed | Failed

  class MemoryJob {
    const id: string
    const queue: string
    const maxAttempts: nat
    const envelope: Value
    var state: JobState
    var attempts: nat
    var started: nat
    var failed: bool

    constructor (id: string, queue: string, maxAttempts: nat, envelope: Value)
      ensures this.id == id && this.queue == queue && this.maxAttempts == maxAttempts && this.envelope == envelope
      ensures state == Waiting && attempts == 0 && started == 0 && !failed
    {
      this.id, this.queue, this.maxAttempts, this.envelope := id, queue, maxAttempts, envelope;
      state, attempts, started, failed := Waiting, 0, 0, false;
    }
  }

  // ---------------------------------------------------------------- lists of jobs

  predicate NoRepeats(jobs: seq<MemoryJob>) {
    forall i, j | 0 <= i < j < |jobs| :: jobs[i] != jobs[j]
  }

  lemma JoinInTurn(jobs: seq<MemoryJob>, first: seq<MemoryJob>, more: seq<MemoryJob>)
    ensures jobs + first + more == jobs + (first + more)
  {
  }

  /** `splice(i, 1)`. */
  function Without(jobs: seq<MemoryJob>, i: nat): seq<MemoryJob>
    requires i < |jobs|
  {
    jobs[..i] + jobs[i + 1..]
  }

  lemma WithoutOne(jobs: seq<MemoryJob>, i: nat)
    requires i < |jobs| && NoRepeats(jobs)
    ensures NoRepeats(Without(jobs, i))
    ensures forall j :: j in Without(jobs, i) <==> j in jobs && j != jobs[i]
  {
    forall j | j in jobs && j != jobs[i] ensures j in Without(jobs, i) {
      var k :| 0 <= k < |jobs| && jobs[k] == j;
      assert if k < i then Without(jobs, i)[k] == j else Without(jobs, i)[k - 1] == j;
    }
  }

  /** The jobs of a list on queues that run, in order, and those on queues held back. */
  function Runnable(jobs: seq<MemoryJob>, paused: set<string>): seq<MemoryJob> {
    if jobs == [] then []
    else (if jobs[0].queue in paused then [] else [jobs[0]]) + Runnable(jobs[1..], paused)
  }

  function HeldBack(jobs: seq<MemoryJob>, paused: set<string>): seq<MemoryJob> {
    if jobs == [] then []
    else (if jobs[0].queue in paused then [jobs[0]] else []) + HeldBack(jobs[1..], paused)
  }

  lemma {:induction false} FirstRunnable(jobs: seq<MemoryJob>, paused: set<string>, i: nat)
    requires i < |jobs| && jobs[i].queue !in paused && forall k | 0 <= k < i :: jobs[k].queue in paused
    ensures Runnable(jobs, paused) == [jobs[i]] + Runnable(Without(jobs, i), paused)
    ensures HeldBack(jobs, paused) == HeldBack(Without(jobs, i), paused)
    decreases i
  {
    if i == 0 {
      assert Without(jobs, 0) == jobs[1..];
    } else {
      FirstRunnable(jobs[1..], paused, i - 1);
      assert Without(jobs, i) == [jobs[0]] + Without(jobs[1..], i - 1);
    }
  }

  lemma {:induction false} NoneRunnable(jobs: seq<MemoryJob>, paused: set<string>)
    requires forall k | 0 <= k < |jobs| :: jobs[k].queue in paused
    ensures Runnable(jobs, paused) == [] && HeldBack(jobs, paused) == jobs
    decreases jobs
  {
    if jobs != [] {
      NoneRunnable(jobs[1..], paused);
      assert [jobs[0]] + jobs[1..] == jobs;
    }
  }

  lemma {:induction false} RunnableAre(jobs: seq<MemoryJob>, paused: set<string>)
    ensures forall j | j in Runnable(jobs, paused) :: j in jobs && j.queue !in paused
    ensures Runnable(jobs, paused) == [] ==> HeldBack(jobs, paused) == jobs
    decreases jobs
  {
    if jobs != [] {
      RunnableAre(jobs[1..], paused);
      assert [jobs[0]] + jobs[1..] == jobs;
    }
  }

  lemma {:induction false} PausedRunsNot(jobs: seq<MemoryJob>, paused: set<string>, queue: string)
    ensures forall j | j in Runnable(jobs, paused + {queue}) :: j.queue != queue && j in Runnable(jobs, paused)
    decreases jobs
  {
    if jobs != [] { PausedRunsNot(jobs[1..], paused, queue); }
  }

  lemma {:induction false} ResumedRuns(jobs: seq<MemoryJob>, paused: set<string>, queue: string)
    requires queue !in paused
    ensures forall j | j in jobs && j.queue == queue :: j in Runnable(jobs, paused)
    decreases jobs
  {
    if jobs != [] { ResumedRuns(jobs[1..], paused, queue); }
  }

  lemma {:induction false} RunnableJoin(a: seq<MemoryJob>, b: seq<MemoryJob>, paused: set<string>)
    ensures Runnable(a + b, paused) == Runnable(a, paused) + Runnable(b, paused)
    decreases a
  {
    if a == [] {
      assert a + b == b;
    } else {
      assert (a + b)[1..] == a[1..] + b && (a + b)[0] == a[0];
      RunnableJoin(a[1..], b, paused);
      var first, x, y := if a[0].queue in paused then [] else [a[0]], Runnable(a[1..], paused), Runnable(b, paused);
      assert first + (x + y) == first + x + y;
    }
  }

  lemma {:induction false} HeldBackJoin(a: seq<MemoryJob>, b: seq<MemoryJob>, paused: set<string>)
    ensures HeldBack(a + b, paused) == HeldBack(a, paused) + HeldBack(b, paused)
    decreases a
  {
    if a == [] {
      assert a + b == b;
    } else {
      assert (a + b)[1..] == a[1..] + b && (a + b)[0] == a[0];
      HeldBackJoin(a[1..], b, paused);
      var first, x, y := if a[0].queue in paused then [a[0]] else [], HeldBack(a[1..], paused), HeldBack(b, paused);
      assert first + (x + y) == first + x + y;
    }
  }

  lemma LinesJoin(a: seq<MemoryJob>, b: seq<MemoryJob>, paused: set<string>)
    ensures Runnable(a + b, paused) == Runnable(a, paused) + Runnable(b, paused)
    ensures HeldBack(a + b, paused) == HeldBack(a, paused) + HeldBack(b, paused)
  {
    RunnableJoin(a, b, paused);
    HeldBackJoin(a, b, paused);
  }

  /** A drain that has run `order` of all the jobs that ever stood in `line`, and has `pending` left. */
  ghost predicate Drained(line: seq<MemoryJob>, paused: set<string>, order: seq<MemoryJob>, pending: seq<MemoryJob>) {
    && order + Runnable(pending, paused) == Runnable(line, paused)
    && HeldBack(pending, paused) == HeldBack(line, paused)
  }

  /** A line and the list of recorded jobs grew by the same jobs. */
  predicate GrewAlike(was: seq<MemoryJob>, line: seq<MemoryJob>, kept: seq<MemoryJob>, recorded: seq<MemoryJob>) {
    was <= line && kept <= recorded && line[|was|..] == recorded[|kept|..]
  }

  lemma GrowAlike(was: seq<MemoryJob>, line: seq<MemoryJob>, kept: seq<MemoryJob>, recorded: seq<MemoryJob>,
                  added: seq<MemoryJob>)
    requires GrewAlike(was, line, kept, recorded)
    ensures GrewAlike(was, line + added, kept, recorded + added)
  {
    assert (line + added)[|was|..] == line[|was|..] + added;
    assert (recorded + added)[|kept|..] == recorded[|kept|..] + added;
  }

  lemma DrainBegins(pending: seq<MemoryJob>, paused: set<string>, recorded: seq<MemoryJob>)
    ensures Drained(pending, paused, [], pending) && GrewAlike(pending, pending, recorded, recorded)
  {
    assert [] + Runnable(pending, paused) == Runnable(pending, paused);
  }

  lemma DrainEnds(line: seq<MemoryJob>, paused: set<string>, order: seq<MemoryJob>, pending: seq<MemoryJob>)
    requires Drained(line, paused, order, pending) && Runnable(pending, paused) == []
    ensures order == Runnable(line, paused) && pending == HeldBack(line, paused)
  {
    RunnableAre(pending, paused);
    assert order + [] == order;
  }

  /** The line and what is left of it grow alike. */
  lemma DrainGrows(line: seq<MemoryJob>, paused: set<string>, order: seq<MemoryJob>, pending: seq<MemoryJob>,
                   added: seq<MemoryJob>)
    requires Drained(line, paused, order, pending)
    ensures Drained(line + added, paused, order, pending + added)
  {
    LinesJoin(line, added, paused);
    LinesJoin(pending, added, paused);
  }

  lemma DrainsOn(line: seq<MemoryJob>, paused: set<string>, order: seq<MemoryJob>, before: seq<MemoryJob>,
                 next: MemoryJob, pending: seq<MemoryJob>)
    requires Drained(line, paused, order, before)
    requires Runnable(before, paused) == [next] + Runnable(pending, paused)
    requires HeldBack(before, paused) == HeldBack(pending, paused)
    ensures Drained(line, paused, order + [next], pending)
  {
    assert order + ([next] + Runnable(pending, paused)) == order + [next] + Runnable(pending, paused);
  }

  /** A job was taken, and others were added. */
  lemma LeavesTheLine(was: seq<MemoryJob>, paused: set<string>, next: MemoryJob, rest: seq<MemoryJob>,
                      added: seq<MemoryJob>)
    requires Runnable(was, paused) == [next] + Runnable(rest, paused)
    requires HeldBack(was, paused) == HeldBack(rest, paused)
    ensures Runnable(was + added, paused) == [next] + Runnable(rest + added, paused)
    ensures HeldBack(was + added, paused) == HeldBack(rest + added, paused)
  {
    LinesJoin(was, added, paused);
    LinesJoin(rest, added, paused);
    var a, b := Runnable(rest, paused), Runnable(added, paused);
    assert ([next] + a) + b == [next] + (a + b);
  }

  /** A job that was taken goes back to the head of what is left. */
  lemma PutBack(line: seq<MemoryJob>, paused: set<string>, next: MemoryJob, pending: seq<MemoryJob>)
    requires Runnable(line, paused) == [next] + Runnable(pending, paused)
    requires HeldBack(line, paused) == HeldBack(pending, paused)
    ensures next in line
    ensures Runnable([next] + pending, paused) == Runnable(line, paused)
    ensures HeldBack([next] + pending, paused) == HeldBack(line, paused)
  {
    RunnableAre(line, paused);
    assert next in Runnable(line, paused);
    assert ([next] + pending)[1..] == pending;
  }

  /** The place of the first job under an id. */
  function FirstAt(jobs: seq<MemoryJob>, queue: string, id: string): (found: Option<nat>)
    ensures found.Some? ==> found.value < |jobs| && jobs[found.value].queue == queue && jobs[found.value].id == id
    ensures found.None? ==> forall k | 0 <= k < |jobs| :: jobs[k].queue != queue || jobs[k].id != id
  {
    if jobs == [] then None
    else if jobs[0].queue == queue && jobs[0].id == id then Some(0)
    else
      var rest := FirstAt(jobs[1..], queue, id);
      assert rest.None? ==> forall k | 1 <= k < |jobs| :: jobs[k] == jobs[1..][k - 1];
      match rest case None => None case Some(k) => Some(k + 1)
  }

  lemma {:induction false} FirstAtIs(jobs: seq<MemoryJob>, queue: string, id: string, k: nat)
    requires k < |jobs| && jobs[k].queue == queue && jobs[k].id == id
    requires forall i | 0 <= i < k :: jobs[i].queue != queue || jobs[i].id != id
    ensures FirstAt(jobs, queue, id) == Some(k)
    decreases k
  {
    if k > 0 {
      FirstAtIs(jobs[1..], queue, id, k - 1);
    }
  }

  // ---------------------------------------------------------------- the driver

  datatype Ran = RanTo(state: JobState) | NothingPending | AllPaused | NoConsumer | HeldLease

  datatype HandlerEnd = Succeeds | Throws | MeetsAHeldLease

  /** One enqueue; an empty id is none. */
  datatype Request = Request(queue: string, jobId: Option<string>, attempts: nat, envelope: Envelope)

  /** One run of a handler: what it enqueues on the way, and how it ends. */
  datatype Handler = Handler(end: HandlerEnd, requests: seq<Request>)

  predicate IsDerived(r: Request) {
    r.jobId.Some? && r.jobId.value != ""
  }

  datatype Cancelled = UnknownJob | Finished(state: JobState) | Aborting | Removed

  class MemoryDriver {
    var recorded: seq<MemoryJob>
    var pending: seq<MemoryJob>
    var consumers: set<string>
    var paused: set<string>
    const marks: C.MemoryMarks
    /** Every job the driver ever made. */
    ghost var Jobs: set<MemoryJob>

    /** `pending` has no repeats and holds exactly the recorded jobs that wait. */
    ghost predicate Valid()
      reads this, recorded
    {
      && NoRepeats(recorded) && NoRepeats(pending) && (forall j | j in recorded :: j in Jobs)
      && (forall j | j in pending :: j in recorded && j.state == Waiting)
      && (forall j | j in recorded && j.state == Waiting :: j in pending)
    }

    /** No two jobs share a name, and none carries a number the driver has yet to give out. */
    ghost predicate IdsAreSafe()
      reads this
    {
      Safe(Names(recorded))
    }

    constructor ()
      ensures Valid() && IdsAreSafe() && recorded == [] && pending == [] && Jobs == {}
      ensures consumers == {} && paused == {} && fresh(marks) && marks.Valid() && marks.marked == map[]
    {
      recorded, pending, consumers, paused, Jobs := [], [], {}, {}, {};
      marks := new C.MemoryMarks();
    }

    /** `jobAt`: the first recorded job under an id. */
    method JobAt(queue: string, id: string) returns (found: Option<nat>)
      ensures found == FirstAt(recorded, queue, id)
    {
      for i := 0 to |recorded|
        invariant forall k | 0 <= k < i :: recorded[k].queue != queue || recorded[k].id != id
      {
        if recorded[i].queue == queue && recorded[i].id == id {
          FirstAtIs(recorded, queue, id, i);
          return Some(i);
        }
      }
      found := None;
    }

    method IndexIn(jobs: seq<MemoryJob>, job: MemoryJob) returns (i: nat)
      requires job in jobs
      ensures i < |jobs| && jobs[i] == job
    {
      i := 0;
      while jobs[i] != job
        invariant i < |jobs| && job !in jobs[..i]
        decreases |jobs| - i
      {
        assert jobs[..i + 1] == jobs[..i] + [jobs[i]];
        i := i + 1;
      }
    }

    /** One new job, last in both lists, with a copy of its envelope as JSON keeps it. */
    method Store(id: string, r: Request) returns (job: MemoryJob)
      requires Valid()
      modifies this`recorded, this`pending, this`Jobs
      ensures Valid() && fresh(job) && recorded == old(recorded) + [job] && pending == old(pending) + [job]
      ensures Jobs == old(Jobs) + {job}
      ensures job.id == id && job.queue == r.queue && job.maxAttempts == r.attempts && job.state == Waiting
      ensures D.Storable(r.envelope) ==> D.ReadEnvelope(job.envelope) == Ok(r.envelope)
      ensures Names(recorded) == old(Names(recorded)) + [NamedJob(r.queue, id)]
    {
      job := new MemoryJob(id, r.queue, r.attempts, D.Project(D.EnvelopeValue(r.envelope)));
      if D.Storable(r.envelope) { D.EnvelopeSurvives(r.envelope); }
      NamesGrow(recorded, job);
      recorded, pending, Jobs := recorded + [job], pending + [job], Jobs + {job};
    }

    /** A job under an id the driver keeps is given back, with nothing stored; otherwise the job is
        stored last in both lists. `refused` is a delivery option the driver does not support. */
    method Enqueue(r: Request, refused: bool) returns (job: MemoryJob?)
      requires Valid()
      modifies this`recorded, this`pending, this`Jobs
      ensures Valid()
      ensures refused <==> job == null
      ensures refused ==> recorded == old(recorded) && pending == old(pending)
      ensures fresh(Jobs - old(Jobs))
      ensures job != null ==>
                && job in recorded && job.queue == r.queue && (IsDerived(r) ==> job.id == r.jobId.value)
                && Names(recorded) == NamesWith(old(Names(recorded)), r)
                && (job in old(recorded) ==> recorded == old(recorded) && pending == old(pending) && IsDerived(r))
      ensures job != null && job !in old(recorded) ==>
                && fresh(job) && recorded == old(recorded) + [job] && pending == old(pending) + [job]
                && job.maxAttempts == r.attempts
                && (D.Storable(r.envelope) ==> D.ReadEnvelope(job.envelope) == Ok(r.envelope))
                && (IsDerived(r) ==> FirstAt(old(recorded), r.queue, job.id).None?)
                && (!IsDerived(r) ==> job.id == Decimal(|old(recorded)| + 1))
      // Safe ids stay apart, and stay safe but for an id the caller made that is a number yet to come.
      ensures old(IdsAreSafe()) ==>
                && Apart(Names(recorded))
                && (IdsAreSafe() <==> refused || !IsDerived(r) || !IsAbove(r.jobId.value, |recorded|))
    {
      if refused {
        return null;
      }
      SafeWith(Names(recorded), r);
      if IsDerived(r) {
        var already := JobAt(r.queue, r.jobId.value);
        NamedIff(recorded, r.queue, r.jobId.value);
        if already.Some? {
          return recorded[already.value];
        }
      }
      job := Store(if IsDerived(r) then r.jobId.value else Decimal(|recorded| + 1), r);
    }

    /** One enqueue, as the lists see it. */
    method EnqueueOne(r: Request) returns (ghost added: seq<MemoryJob>)
      requires Valid()
      modifies this`recorded, this`pending, this`Jobs
      ensures Valid() && recorded == old(recorded) + added && pending == old(pending) + added
      ensures |added| <= 1 && fresh(Jobs - old(Jobs))
      ensures Names(recorded) == NamesWith(old(Names(recorded)), r)
    {
      var job := Enqueue(r, false);
      added := if job in old(recorded) then [] else [job];
    }

    /** The enqueues a handler makes while it runs. */
    method EnqueueAll(requests: seq<Request>) returns (ghost added: seq<MemoryJob>)
      requires Valid()
      modifies this`recorded, this`pending, this`Jobs
      ensures Valid() && recorded == old(recorded) + added && pending == old(pending) + added
      ensures |added| <= |requests| && fresh(Jobs - old(Jobs))
      ensures Names(recorded) == NamesAfter(old(Names(recorded)), requests)
      decreases requests
    {
      added := [];
      if requests != [] {
        ghost var kept, line := recorded, pending;
        ghost var first := EnqueueOne(requests[0]);
        ghost var more := EnqueueAll(requests[1..]);
        added := first + more;
        JoinInTurn(kept, first, more);
        JoinInTurn(line, first, more);
      }
    }

    method Consume(queue: string)
      modifies this`consumers
      ensures consumers == old(consumers) + {queue}
    {
      consumers := consumers + {queue};
    }

    /** `close` of a consumer. */
    method StopConsuming(queue: string)
      modifies this`consumers
      ensures consumers == old(consumers) - {queue}
    {
      consumers := consumers - {queue};
    }

    /** A paused queue keeps its jobs where they stand in line; none of them runs. */
    method Pause(queue: string)
      modifies this`paused
      ensures paused == old(paused) + {queue}
      ensures forall j | j in Runnable(pending, paused) :: j.queue != queue && j in Runnable(pending, old(paused))
    {
      paused := paused + {queue};
      PausedRunsNot(pending, old(paused), queue);
    }

    /** A resumed queue's jobs run again, from where they stood. */
    method Resume(queue: string)
      modifies this`paused
      ensures paused == old(paused) - {queue}
      ensures forall j | j in pending && j.queue == queue :: j in Runnable(pending, paused)
    {
      paused := paused - {queue};
      ResumedRuns(pending, paused, queue);
    }

    /** `runnable`: the place of the first pending job on a queue that runs. */
    method FirstToRun() returns (first: Option<nat>)
      ensures first.None? <==> Runnable(pending, paused) == []
      ensures first.None? ==> forall j | j in pending :: j.queue in paused
      ensures first.Some? ==>
                && first.value < |pending| && pending[first.value].queue !in paused
                && forall k | 0 <= k < first.value :: pending[k].queue in paused
    {
      for i := 0 to |pending|
        invariant forall k | 0 <= k < i :: pending[k].queue in paused
      {
        if pending[i].queue !in paused {
          FirstRunnable(pending, paused, i);
          return Some(i);
        }
      }
      NoneRunnable(pending, paused);
      first := None;
    }

    method AnyToRun() returns (more: bool)
      ensures more <==> Runnable(pending, paused) != []
    {
      var first := FirstToRun();
      more := first.Some?;
    }

    /** The first half of `runNext`: the first pending job of a running queue leaves the line. */
    method TakeNext() returns (next: MemoryJob?, why: Ran)
      requires Valid()
      modifies this`pending, recorded
      ensures Valid()
      ensures next == null ==>
                && pending == old(pending) && unchanged(recorded)
                && why == WhyNone(pending, paused) && why in {NothingPending, AllPaused, NoConsumer}
                && (why == NothingPending <==> pending == [])
                && (why == AllPaused <==> pending != [] && forall j | j in pending :: j.queue in paused)
                && (why == NoConsumer ==> Runnable(pending, paused)[0].queue !in consumers)
      ensures next != null ==>
                && next in recorded && next.state == Active
                && next.started == old(next.started) + 1 && next.attempts == old(next.attempts)
                && Runnable(old(pending), paused) == [next] + Runnable(pending, paused)
                && HeldBack(old(pending), paused) == HeldBack(pending, paused)
                && next.queue in consumers && |pending| == |old(pending)| - 1
                && (forall j | j in pending :: j in old(pending))
                && (forall j | j in recorded && j != next :: j.state == old(j.state) && j.attempts == old(j.attempts))
    {
      var first := FirstToRun();
      if first.None? {
        return null, if |pending| > 0 then AllPaused else NothingPending;
      }
      var i := first.value;
      FirstRunnable(pending, paused, i);
      if pending[i].queue !in consumers {
        return null, NoConsumer;
      }
      WithoutOne(pending, i);
      next, why := pending[i], RanTo(Active);
      pending := Without(pending, i);
      assert next in recorded;
      next.state := Active;
      next.started := next.started + 1;
    }

    /** The second half of `runNext`, once the handler ended: a held lease puts the job back at the
        head of the line, anything else ends its run. */
    method Settle(job: MemoryJob, end: HandlerEnd) returns (ran: Ran)
      requires Valid() && job in recorded && job.state == Active
      modifies this`pending, job
      ensures Valid() && job.started == old(job.started)
      ensures ran == EndsAs(end)
      ensures end == MeetsAHeldLease ==>
                job.state == Waiting && job.attempts == old(job.attempts) && pending == [job] + old(pending)
      ensures end != MeetsAHeldLease ==>
                job.state == (if end == Succeeds then Completed else Failed) && job.attempts == old(job.attempts) + 1
                && job.failed == (end == Throws || old(job.failed)) && pending == old(pending)
    {
      match end
      case Succeeds =>
        job.state, job.attempts := Completed, job.attempts + 1;
        ran := RanTo(Completed);
      case MeetsAHeldLease =>
        job.state := Waiting;
        pending := [job] + pending;
        ran := HeldLease;
      case Throws =>
        job.state, job.attempts, job.failed := Failed, job.attempts + 1, true;
        ran := RanTo(Failed);
    }

    /** `retry`: a failed job, and only that, goes back to the end of the line with its count at 0. */
    method Retry(queue: string, id: string) returns (retried: bool)
      requires Valid()
      modifies this`pending, recorded
      ensures Valid()
      ensures var found := FirstAt(recorded, queue, id);
              && (retried <==> found.Some? && old(recorded[found.value].state) == Failed)
              && (!retried ==> pending == old(pending) && unchanged(recorded))
              && (retried ==>
                    var job := recorded[found.value];
                    && pending == old(pending) + [job]
                    && job.attempts == 0 && job.started == old(job.started) && !job.failed
                    && forall j | j in recorded && j != job :: unchanged(j))
    {
      var found := JobAt(queue, id);
      retried := false;
      if found.Some? && recorded[found.value].state == Failed {
        var job := recorded[found.value];
        job.state, job.attempts, job.failed := Waiting, 0, false;
        pending := pending + [job];
        retried := true;
      }
    }

    /** `cancel`: a waiting job leaves both lists, an active one is left for a mark, a finished one
        and an unknown one are only answered. */
    method Cancel(queue: string, id: string) returns (result: Cancelled)
      requires Valid()
      modifies this`pending, this`recorded, marks
      ensures Valid()
      // Ids that were safe are no longer exactly when a job that stays carries the number given out next.
      ensures old(IdsAreSafe()) ==>
                && Apart(Names(recorded))
                && (IdsAreSafe() <==>
                    result == Removed ==> forall j | j in recorded :: NumberOf(j.id) != Some(|old(recorded)|))
      ensures var found := FirstAt(old(recorded), queue, id);
              && result == (if found.None? then UnknownJob else match old(recorded)[found.value].state
                            case Active => Aborting
                            case Waiting => Removed
                            case done => Finished(done))
              && marks.marked == (if result != Aborting then old(marks.marked)
                                  else old(marks.marked)[ComposeJobId(queue, id) := old(recorded)[found.value].started])
              && (result != Removed ==> pending == old(pending) && recorded == old(recorded))
              && (result == Removed ==>
                    && recorded == Without(old(recorded), found.value)
                    && exists i :: 0 <= i < |old(pending)| && old(pending)[i] == old(recorded)[found.value]
                                   && pending == Without(old(pending), i))
    {
      var found := JobAt(queue, id);
      if found.None? {
        return UnknownJob;
      }
      var job := recorded[found.value];
      if job.state == Completed || job.state == Failed {
        return Finished(job.state);
      }
      if job.state == Active {
        marks.RequestCancel(queue, C.Delivery(job.id, job.started));
        return Aborting;
      }
      var i := IndexIn(pending, job);
      WithoutOne(pending, i);
      WithoutOne(recorded, found.value);
      if IdsAreSafe() { OneLeaves(recorded, found.value); }
      pending := Without(pending, i);
      recorded := Without(recorded, found.value);
      result := Removed;
    }

    /** `runNext`, for every way its handler can end and whatever it enqueues on the way: the first runnable
        job leaves the line, or goes back to where it stood, and what it enqueued stands last. */
    method RunNext(h: Handler)
      returns (next: MemoryJob?, ran: Ran, ghost added: seq<MemoryJob>)
      requires Valid()
      modifies this`pending, this`recorded, this`Jobs, Jobs
      ensures Valid() && recorded == old(recorded) + added && fresh(Jobs - old(Jobs))
      ensures next == null ==>
                && added == [] && pending == old(pending) && unchanged(old(recorded))
                && ran == WhyNone(pending, paused)
                && (ran == NoConsumer ==> Runnable(pending, paused)[0].queue !in consumers)
      ensures next != null ==>
                && next in old(pending) && next in recorded && ran == EndsAs(h.end) && next.state == StateAfter(h.end)
                && |added| <= |h.requests| && Names(recorded) == NamesAfter(old(Names(recorded)), h.requests)
                && HeldBack(old(pending) + added, paused) == HeldBack(pending, paused)
                && (h.end == MeetsAHeldLease ==>
                      && Runnable(pending, paused) == Runnable(old(pending) + added, paused)
                      && [next] <= Runnable(pending, paused))
                && (h.end != MeetsAHeldLease ==>
                      && Runnable(old(pending) + added, paused) == [next] + Runnable(pending, paused)
                      && |pending| == |old(pending)| - 1 + |added|)
                && (forall j | j in old(recorded) && j != next :: j.state == old(j.state))
    {
      next, ran := TakeNext();
      added := [];
      if next != null {
        ghost var rest := pending;
        PutBack(old(pending), paused, next, rest);
        added := EnqueueAll(h.requests);
        LeavesTheLine(old(pending), paused, next, rest, added);
        PutBack(old(pending) + added, paused, next, rest + added);
        ran := Settle(next, h.end);
      }
    }

    /** A drain that ran `order`, all of it to success, of all that ever stood in `line`. */
    ghost predicate Draining(line: seq<MemoryJob>, order: seq<MemoryJob>)
      reads this, recorded
    {
      && Valid() && Drained(line, paused, order, pending)
      && forall j | j in order :: j in recorded && j.state == Completed
    }

    /** What a drain stopped at: a job that threw, which left the line; one that met a held lease, which is
        back at its head; or one nobody consumes, which stands there still. */
    ghost predicate StoppedAt(why: Ran, at: MemoryJob?, end: HandlerEnd, line: seq<MemoryJob>, order: seq<MemoryJob>)
      reads this, recorded, at
    {
      && Valid() && (forall j | j in order :: j in recorded && j.state == Completed)
      && match why
         case RanTo(state) =>
           && state == Failed && end == Throws && at != null && at.state == Failed
           && Drained(line, paused, order + [at], pending)
         case HeldLease =>
           && end == MeetsAHeldLease && at != null && at.state == Waiting && [at] <= Runnable(pending, paused)
           && Drained(line, paused, order, pending)
         case NoConsumer =>
           && at == null && Runnable(pending, paused) != [] && Runnable(pending, paused)[0].queue !in consumers
           && Drained(line, paused, order, pending)
         case _ => false
    }

    /** One turn of `drain`; `line` is all that ever stood in line since the lists were `was` and `kept`. */
    method DrainTurn(h: Handler, ghost was: seq<MemoryJob>, ghost kept: seq<MemoryJob>, ghost line: seq<MemoryJob>,
                     ghost order: seq<MemoryJob>)
      returns (next: MemoryJob?, ran: Ran, ghost longer: seq<MemoryJob>)
      requires Draining(line, order) && Runnable(pending, paused) != [] && GrewAlike(was, line, kept, recorded)
      modifies this`pending, this`recorded, this`Jobs, Jobs
      ensures GrewAlike(was, longer, kept, recorded) && fresh(Jobs - old(Jobs))
      ensures Names(recorded) == NamesAfter(old(Names(recorded)), if next == null then [] else h.requests)
      ensures ran == RanTo(Completed) ==>
                && next != null && h.end == Succeeds && Draining(longer, order + [next])
                && |pending| < |old(pending)| + |h.requests|
      ensures ran != RanTo(Completed) ==> StoppedAt(ran, next, h.end, longer, order)
    {
      ghost var added;
      next, ran, added := RunNext(h);
      longer := line + added;
      DrainGrows(line, paused, order, old(pending), added);
      GrowAlike(was, line, kept, old(recorded), added);
      if next == null {
        assert pending + added == pending && recorded + added == recorded;
      } else if h.end != MeetsAHeldLease {
        DrainsOn(longer, paused, order, old(pending) + added, next, pending);
      }
    }

    /** A drain after `n` runs, since the lists were `was` and `kept` with those names. */
    ghost predicate UnderWay(handlers: seq<Handler>, n: nat, names: seq<NamedJob>, was: seq<MemoryJob>,
                             kept: seq<MemoryJob>, line: seq<MemoryJob>, order: seq<MemoryJob>)
      reads this, recorded
    {
      && Draining(line, order) && n == |order| && GrewAlike(was, line, kept, recorded)
      && Handled(handlers, n, n, names, Names(recorded))
    }

    /** Such a drain, stopped. */
    ghost predicate Stopped(handlers: seq<Handler>, n: nat, names: seq<NamedJob>, was: seq<MemoryJob>,
                            kept: seq<MemoryJob>, line: seq<MemoryJob>, order: seq<MemoryJob>, why: Ran, at: MemoryJob?)
      reads this, recorded, at
    {
      && StoppedAt(why, at, HandlerAt(handlers, n).end, line, order) && n == |order|
      && GrewAlike(was, line, kept, recorded)
      && Handled(handlers, n, if at == null then n else n + 1, names, Names(recorded))
    }

    /** The turn of the n-th handler. */
    method HandlerTurn(handlers: seq<Handler>, n: nat, ghost names: seq<NamedJob>, ghost was: seq<MemoryJob>,
                       ghost kept: seq<MemoryJob>, ghost line: seq<MemoryJob>, ghost order: seq<MemoryJob>)
      returns (next: MemoryJob?, ran: Ran, ghost longer: seq<MemoryJob>, ghost further: seq<MemoryJob>)
      requires UnderWay(handlers, n, names, was, kept, line, order) && Runnable(pending, paused) != []
      modifies this`pending, this`recorded, this`Jobs, Jobs
      ensures fresh(Jobs - old(Jobs))
      ensures ran == RanTo(Completed) ==>
                && UnderWay(handlers, n + 1, names, was, kept, longer, further)
                && |pending| + WorkLeft(handlers, n + 1) < |old(pending)| + WorkLeft(handlers, n)
      ensures ran != RanTo(Completed) ==> Stopped(handlers, n, names, was, kept, longer, order, ran, next)
    {
      ghost var before := Names(recorded);
      next, ran, longer := DrainTurn(HandlerAt(handlers, n), was, kept, line, order);
      further := if next == null then order else order + [next];
      OneMoreHandled(handlers, n, names, before, Names(recorded), next != null);
    }

    /** The loop of `drain`: it ends with nothing runnable, or stopped. */
    method DrainLoop(handlers: seq<Handler>, ghost names: seq<NamedJob>, ghost was: seq<MemoryJob>,
                     ghost kept: seq<MemoryJob>)
      returns (ran: nat, stop: Option<Ran>, at: MemoryJob?, ghost order: seq<MemoryJob>, ghost line: seq<MemoryJob>)
      requires UnderWay(handlers, 0, names, was, kept, was, [])
      modifies this`pending, this`recorded, this`Jobs, Jobs
      ensures stop.None? ==>
                at == null && UnderWay(handlers, ran, names, was, kept, line, order) && Runnable(pending, paused) == []
      ensures stop.Some? ==> Stopped(handlers, ran, names, was, kept, line, order, stop.value, at)
    {
      ran, stop, at, order, line := 0, None, null, [], was;
      var more := AnyToRun();
      while more
        invariant UnderWay(handlers, ran, names, was, kept, line, order) && fresh(Jobs - old(Jobs))
        invariant more <==> Runnable(pending, paused) != []
        decreases |pending| + WorkLeft(handlers, ran)
      {
        var next, end;
        ghost var further;
        next, end, line, further := HandlerTurn(handlers, ran, names, was, kept, line, order);
        if end != RanTo(Completed) {
          return ran, Some(end), next, order, line;
        }
        ran, order := ran + 1, further;
        more := AnyToRun();
      }
    }

    /** `drain`, for every way the handlers end and whatever they enqueue: jobs of running queues run in the
        order they came to stand in line, those enqueued on the way last, until one throws, meets a held lease
        or is on a queue nobody consumes; with none of these all of them ran, the count is theirs and the jobs
        held back keep their order. */
    method Drain(handlers: seq<Handler>)
      returns (ran: nat, stop: Option<Ran>, at: MemoryJob?, ghost order: seq<MemoryJob>, ghost line: seq<MemoryJob>)
      requires Valid()
      modifies this`pending, this`recorded, this`Jobs, Jobs
      ensures ran == |order| && GrewAlike(old(pending), line, old(recorded), recorded)
      ensures Handled(handlers, ran, if at == null then ran else ran + 1, old(Names(recorded)), Names(recorded))
      ensures stop.None? ==>
                && at == null && Draining(line, order)
                && order == Runnable(line, paused) && pending == HeldBack(line, paused)
      ensures stop.Some? ==> StoppedAt(stop.value, at, HandlerAt(handlers, ran).end, line, order)
    {
      DrainBegins(pending, paused, recorded);
      ran, stop, at, order, line := DrainLoop(handlers, Names(recorded), pending, recorded);
      if stop.None? { DrainEnds(line, paused, order, pending); }
    }
  }

  /** The n-th handler of a drain; those that nothing is said of succeed and enqueue nothing. */
  function HandlerAt(handlers: seq<Handler>, n: nat): Handler {
    if n < |handlers| then handlers[n] else Handler(Succeeds, [])
  }

  /** The first n of them succeed. */
  predicate AllSucceed(handlers: seq<Handler>, n: nat) {
    n > 0 ==> HandlerAt(handlers, n - 1).end == Succeeds && AllSucceed(handlers, n - 1)
  }

  /** What the first n handlers enqueued, and how much is still to come. */
  function WorkDone(handlers: seq<Handler>, n: nat): seq<Request> {
    if n == 0 then [] else WorkDone(handlers, n - 1) + HandlerAt(handlers, n - 1).requests
  }

  function WorkLeft(handlers: seq<Handler>, n: nat): nat
    decreases |handlers| - n
  {
    if n < |handlers| then |handlers[n].requests| + WorkLeft(handlers, n + 1) else 0
  }

  /** The first n handlers succeeded, and from `before` to `after` the names grew by what m of them enqueued. */
  predicate Handled(handlers: seq<Handler>, n: nat, m: nat, before: seq<NamedJob>, after: seq<NamedJob>) {
    AllSucceed(handlers, n) && after == NamesAfter(before, WorkDone(handlers, m))
  }

  lemma OneMoreHandled(handlers: seq<Handler>, n: nat, start: seq<NamedJob>, before: seq<NamedJob>,
                       after: seq<NamedJob>, handled: bool)
    requires Handled(handlers, n, n, start, before)
    requires after == NamesAfter(before, if handled then HandlerAt(handlers, n).requests else [])
    ensures Handled(handlers, n, if handled then n + 1 else n, start, after)
    ensures handled && HandlerAt(handlers, n).end == Succeeds ==> Handled(handlers, n + 1, n + 1, start, after)
    ensures WorkLeft(handlers, n) == |HandlerAt(handlers, n).requests| + WorkLeft(handlers, n + 1)
  {
    var work := HandlerAt(handlers, n).requests;
    if handled {
      NamesAfterBoth(start, WorkDone(handlers, n), work);
      assert WorkDone(handlers, n + 1) == WorkDone(handlers, n) + work;
    } else {
      assert after == before;
    }
  }

  function WhyNone(pending: seq<MemoryJob>, paused: set<string>): Ran {
    if pending == [] then NothingPending else if Runnable(pending, paused) == [] then AllPaused else NoConsumer
  }

  function EndsAs(end: HandlerEnd): Ran {
    match end case Succeeds => RanTo(Completed) case Throws => RanTo(Failed) case MeetsAHeldLease => HeldLease
  }

  function StateAfter(end: HandlerEnd): JobState {
    match end case Succeeds => Completed case Throws => Failed case MeetsAHeldLease => Waiting
  }

  // ---------------------------------------------------------------- generated ids

  function Names(jobs: seq<MemoryJob>): seq<NamedJob> {
    seq(|jobs|, i requires 0 <= i < |jobs| => NamedJob(jobs[i].queue, jobs[i].id))
  }

  predicate Apart(names: seq<NamedJob>) {
    forall i, j | 0 <= i < j < |names| :: names[i] != names[j]
  }

  /** The id is the text of a number past `n`. */
  predicate IsAbove(id: string, n: nat) {
    NumberOf(id).Some? && NumberOf(id).value > n
  }

  /** Generated ids count the jobs kept, so a number above their count is still to be given out. */
  predicate NoneAbove(names: seq<NamedJob>) {
    forall i | 0 <= i < |names| :: !IsAbove(names[i].storedId, |names|)
  }

  predicate Safe(names: seq<NamedJob>) {
    Apart(names) && NoneAbove(names)
  }

  function GeneratedName(queue: string, kept: nat): NamedJob {
    NamedJob(queue, Decimal(kept + 1))
  }

  function NameFor(names: seq<NamedJob>, r: Request): NamedJob {
    if IsDerived(r) then NamedJob(r.queue, r.jobId.value) else GeneratedName(r.queue, |names|)
  }

  /** The names after one enqueue, and after several. */
  function NamesWith(names: seq<NamedJob>, r: Request): seq<NamedJob> {
    if IsDerived(r) && NameFor(names, r) in names then names else names + [NameFor(names, r)]
  }

  function NamesAfter(names: seq<NamedJob>, requests: seq<Request>): seq<NamedJob>
    decreases requests
  {
    if requests == [] then names else NamesAfter(NamesWith(names, requests[0]), requests[1..])
  }

  lemma {:induction false} NamesAfterBoth(names: seq<NamedJob>, xs: seq<Request>, ys: seq<Request>)
    ensures NamesAfter(names, xs + ys) == NamesAfter(NamesAfter(names, xs), ys)
    decreases xs
  {
    if xs == [] {
      assert xs + ys == ys;
    } else {
      assert (xs + ys)[1..] == xs[1..] + ys;
      NamesAfterBoth(NamesWith(names, xs[0]), xs[1..], ys);
    }
  }

  /** The names after one generated enqueue on each of these queues. */
  function Generated(names: seq<NamedJob>, queues: seq<string>): seq<NamedJob>
    decreases queues
  {
    if queues == [] then names
    else Generated(names + [GeneratedName(queues[0], |names|)], queues[1..])
  }

  lemma NamesGrow(jobs: seq<MemoryJob>, job: MemoryJob)
    ensures Names(jobs + [job]) == Names(jobs) + [NamedJob(job.queue, job.id)]
  {
  }

  lemma NamedIff(jobs: seq<MemoryJob>, queue: string, id: string)
    ensures NamedJob(queue, id) in Names(jobs) <==> FirstAt(jobs, queue, id).Some?
  {
    var found := FirstAt(jobs, queue, id);
    if found.Some? { assert Names(jobs)[found.value] == NamedJob(queue, id); }
  }

  /** Safe ids after an enqueue: apart, and safe but for an id the caller made that is a number to come. */
  lemma SafeWith(names: seq<NamedJob>, r: Request)
    ensures Safe(names) ==>
              && Apart(NamesWith(names, r))
              && (Safe(NamesWith(names, r)) <==> !IsDerived(r) || !IsAbove(r.jobId.value, |NamesWith(names, r)|))
  {
    if Safe(names) {
      if !IsDerived(r) {
        GeneratedJoins(names, r.queue);
      } else if NameFor(names, r) !in names {
        DerivedJoins(names, NameFor(names, r));
      } else {
        var i :| 0 <= i < |names| && names[i] == NameFor(names, r);
        NameIsBelow(names, i);
      }
    }
  }

  lemma NameIsBelow(names: seq<NamedJob>, i: nat)
    requires NoneAbove(names) && i < |names|
    ensures !IsAbove(names[i].storedId, |names|)
  {
  }

  lemma JoinsApart(names: seq<NamedJob>, name: NamedJob)
    requires Apart(names) && name !in names
    ensures Apart(names + [name])
  {
  }

  lemma JoinsBelow(names: seq<NamedJob>, name: NamedJob)
    requires NoneAbove(names)
    ensures NoneAbove(names + [name]) <==> !IsAbove(name.storedId, |names| + 1)
  {
    var all := names + [name];
    assert all[|names|] == name;
    forall i | 0 <= i < |names| ensures !IsAbove(all[i].storedId, |all|) {
      assert all[i] == names[i];
    }
  }

  lemma DerivedJoins(names: seq<NamedJob>, name: NamedJob)
    requires Apart(names) && NoneAbove(names) && name !in names
    ensures Apart(names + [name])
    ensures NoneAbove(names + [name]) <==> !IsAbove(name.storedId, |names| + 1)
  {
    JoinsApart(names, name);
    JoinsBelow(names, name);
  }

  lemma NumberedNext(id: string, n: nat)
    ensures !IsAbove(id, n) ==> id != Decimal(n + 1)
    ensures !IsAbove(Decimal(n + 1), n + 1)
  {
    NumberOfDecimal(n + 1);
  }

  lemma GeneratedJoins(names: seq<NamedJob>, queue: string)
    requires Apart(names) && NoneAbove(names)
    ensures Apart(names + [GeneratedName(queue, |names|)]) && NoneAbove(names + [GeneratedName(queue, |names|)])
    ensures !IsAbove(GeneratedName(queue, |names|).storedId, |names| + 1)
  {
    var name := GeneratedName(queue, |names|);
    forall i | 0 <= i < |names| ensures names[i].storedId != name.storedId {
      NumberedNext(names[i].storedId, |names|);
    }
    NumberedNext("", |names|);
    DerivedJoins(names, name);
  }

  lemma {:induction false} GeneratedStayApart(names: seq<NamedJob>, queues: seq<string>)
    requires Apart(names) && NoneAbove(names)
    ensures Apart(Generated(names, queues))
    decreases queues
  {
    if queues != [] {
      GeneratedJoins(names, queues[0]);
      GeneratedStayApart(names + [GeneratedName(queues[0], |names|)], queues[1..]);
    }
  }

  lemma {:induction false} GeneratedAfter(names: seq<NamedJob>, queues: seq<string>)
    ensures |Generated(names, queues)| == |names| + |queues| && names <= Generated(names, queues)
    decreases queues
  {
    if queues != [] {
      GeneratedAfter(names + [GeneratedName(queues[0], |names|)], queues[1..]);
    }
  }

  /** The last of a number of generated enqueues on one queue. */
  lemma {:induction false} LastGenerated(names: seq<NamedJob>, queue: string, queues: seq<string>, kept: nat)
    requires queues != [] && (forall k | 0 <= k < |queues| :: queues[k] == queue) && kept == |names| + |queues| - 1
    ensures |Generated(names, queues)| == kept + 1 && Generated(names, queues)[kept] == GeneratedName(queue, kept)
    decreases queues
  {
    var more := names + [GeneratedName(queue, |names|)];
    if queues[1..] == [] {
      assert Generated(names, queues) == more;
    } else {
      LastGenerated(more, queue, queues[1..], kept);
    }
  }

  lemma AboveIsGenerated(name: NamedJob, n: nat) returns (kept: nat)
    requires IsAbove(name.storedId, n)
    ensures kept >= n && name == GeneratedName(name.queue, kept)
  {
    kept := NumberOf(name.storedId).value - 1;
  }

  lemma NumberComesUp(names: seq<NamedJob>, i: nat, name: NamedJob, kept: nat)
    requires i < |names| && names[i] == name && kept >= |names| && name == GeneratedName(name.queue, kept)
    ensures exists queues :: !Apart(Generated(names, queues))
  {
    var queues := seq(kept - |names| + 1, k => name.queue);
    GeneratedAfter(names, queues);
    LastGenerated(names, name.queue, queues, kept);
    SharedName(Generated(names, queues), i, kept, name);
  }

  lemma SharedName(names: seq<NamedJob>, i: nat, j: nat, name: NamedJob)
    requires i < j < |names| && names[i] == name && names[j] == name
    ensures !Apart(names)
  {
  }

  /** Exactly when generated ids are safe: with the names apart, every further list of enqueues that leave
      the id to the driver keeps them apart, if and only if no kept job carries a number above the count of
      kept jobs. */
  lemma GeneratedIdsAreNewIff(names: seq<NamedJob>)
    requires Apart(names)
    ensures (forall queues :: Apart(Generated(names, queues))) <==> NoneAbove(names)
  {
    if NoneAbove(names) {
      forall queues ensures Apart(Generated(names, queues)) { GeneratedStayApart(names, queues); }
    } else {
      var i :| 0 <= i < |names| && IsAbove(names[i].storedId, |names|);
      var kept := AboveIsGenerated(names[i], |names|);
      NumberComesUp(names, i, names[i], kept);
    }
  }

  /** An id the outbox derives never comes in the way. */
  lemma OutboxIdsAreSafe(rowId: string, n: nat)
    requires Outbox.OutboxJobId(rowId).Some?
    ensures !IsAbove(Outbox.OutboxJobId(rowId).value, n)
  {
    assert Outbox.OutboxJobId(rowId).value[0] == 'o';
  }

  lemma NamesWithout(jobs: seq<MemoryJob>, i: nat)
    requires i < |jobs|
    ensures Names(Without(jobs, i)) == Names(jobs)[..i] + Names(jobs)[i + 1..]
  {
  }

  /** A job leaves, and the count falls by one: safe ids stay safe unless one of the others carries the
      number the count has just come down from. */
  lemma OneLeaves(jobs: seq<MemoryJob>, i: nat)
    requires i < |jobs| && Apart(Names(jobs)) && NoneAbove(Names(jobs))
    ensures Apart(Names(Without(jobs, i)))
    ensures NoneAbove(Names(Without(jobs, i))) <==> forall j | j in Without(jobs, i) :: NumberOf(j.id) != Some(|jobs|)
  {
    NamesWithout(jobs, i);
    var left, names := Without(jobs, i), Names(jobs);
    forall k | 0 <= k < |left| ensures !IsAbove(left[k].id, |jobs|) {
      NameIsBelow(names, if k < i then k else k + 1);
    }
    forall k | 0 <= k < |left| ensures Names(left)[k].storedId == left[k].id {}
  }

  /** Two jobs that leave their ids to a new driver. */
  method NumberedOneAndTwo(driver: MemoryDriver, r: Request) returns (first: MemoryJob, second: MemoryJob)
    requires driver.Valid() && driver.recorded == [] && !IsDerived(r)
    modifies driver`recorded, driver`pending, driver`Jobs
    ensures driver.Valid() && driver.recorded == [first, second] && first != second
    ensures first.queue == r.queue && second.queue == r.queue && first.state == Waiting && second.state == Waiting
    ensures second.id == Decimal(2)
  {
    var one := driver.Enqueue(r, false);
    assert driver.recorded == [one];
    var two := driver.Enqueue(r, false);
    first, second := one, two;
  }

  /** The family in one run: the second of two jobs keeps its id, and the job enqueued after the first was
      cancelled is given the same. */
  method ReusesAnId() returns (kept: MemoryJob, later: MemoryJob)
    ensures kept != later && kept.queue == later.queue && kept.id == later.id
  {
    var driver := new MemoryDriver();
    var request := Request("q", None, 1, Envelope(1.0, "job", Null, Direct, None));
    var first;
    first, kept := NumberedOneAndTwo(driver, request);
    FirstAtIs(driver.recorded, "q", first.id, 0);
    var removed := driver.Cancel("q", first.id);
    assert driver.recorded == [kept];
    var third := driver.Enqueue(request, false);
    later := third;
  }
}
