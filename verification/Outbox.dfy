/** The outbox relay: one cycle over a claimed batch, and the loop that runs one cycle at a time. */
module Outbox {
  import opened Errors
  import opened JobId
  import opened Definition
  import opened Migration

  datatype Row = Row(id: string, envelope: Envelope)

  datatype LeftReason = DriverFailed | VersionAheadOfUs | Undeliverable

  datatype Report = Report(rowId: string, reason: LeftReason)

  /** What the relay asks the driver for. It carries no uniqueness. */
  datatype Request = Request(queue: string, jobId: string, envelope: Envelope)

  const OUTBOX_PREFIX := "outbox-"

  /** The id a row's job is stored under, for a row that names itself without a colon. */
  function OutboxJobId(rowId: string): Option<string> {
    if rowId == "" || COLON in rowId then None else Some(OUTBOX_PREFIX + rowId)
  }

  lemma NumeralOpensWithADigit(n: nat, text: string)
    requires text != "" && text[0] > '9'
    ensures text != Decimal(n)
  {
    DecimalReadsBack(n);
  }

  /** Two rows never derive one id, and a derived id is neither a whole number nor cut by a colon. */
  lemma DerivedIdsAreApart(a: string, b: string)
    requires OutboxJobId(a).Some? && OutboxJobId(b).Some?
    ensures OutboxJobId(a) == OutboxJobId(b) <==> a == b
    ensures COLON !in OutboxJobId(a).value && forall n: nat :: OutboxJobId(a).value != Decimal(n)
  {
    assert OutboxJobId(a).value[|OUTBOX_PREFIX|..] == a && OutboxJobId(b).value[|OUTBOX_PREFIX|..] == b;
    forall n: nat ensures OutboxJobId(a).value != Decimal(n) { NumeralOpensWithADigit(n, OutboxJobId(a).value); }
  }

  function FindDefinition(defs: seq<Definition>, name: string): Option<Definition> {
    if defs == [] then None
    else if defs[0].name == name then Some(defs[0])
    else FindDefinition(defs[1..], name)
  }

  function MigratedData(d: Definition, e: Envelope): Result<Value, Failure> {
    if e.v > d.version as real then Refused(Ahead) else Migrate(d, e.v, d.version as real, e.data).result
  }

  /** Everything `deliver` does before the driver. */
  function Prepare(defs: seq<Definition>, row: Row): Result<Request, LeftReason> {
    match FindDefinition(defs, row.envelope.name)
    case None => Refused(Undeliverable)
    case Some(d) =>
      if d.slots != [] then Refused(Undeliverable)
      else
        match MigratedData(d, row.envelope)
        case Refused(Ahead) => Refused(VersionAheadOfUs)
        case Refused(_) => Refused(Undeliverable)
        case Ok(data) =>
          match (d.payload(data), OutboxJobId(row.id))
          case (Some(_), Some(jobId)) => Ok(Request(d.queue, jobId, row.envelope))
          case _ => Refused(Undeliverable)
  }

  /** The definition of a name that counts is the first the client was given. */
  predicate IsFirst(defs: seq<Definition>, name: string, n: nat) {
    n < |defs| && defs[n].name == name && forall i | 0 <= i < n :: defs[i].name != name
  }

  /** The definition waits on nothing, brings the payload up to date and accepts it. */
  predicate Accepts(d: Definition, e: Envelope) {
    d.slots == [] && MigratedData(d, e).Ok? && d.payload(MigratedData(d, e).value).Some?
  }

  /** For every row: it is handed to the driver exactly when it has an id without a colon and the client
      knows a definition of its name that accepts it; what is handed over is the row's own envelope,
      unmigrated. The deploy is to blame exactly when that definition runs an older version than the one
      stored, and nothing else ever blames the driver. */
  lemma PreparedIff(defs: seq<Definition>, row: Row)
    ensures var prepared, name := Prepare(defs, row), row.envelope.name;
            && (prepared.Ok? <==>
                  && row.id != "" && COLON !in row.id
                  && exists n: nat :: IsFirst(defs, name, n) && Accepts(defs[n], row.envelope))
            && (prepared == Refused(VersionAheadOfUs) <==>
                  exists n: nat ::
                    IsFirst(defs, name, n) && defs[n].slots == [] && row.envelope.v > defs[n].version as real)
            && (forall n: nat | IsFirst(defs, name, n) && prepared.Ok? ::
                  prepared.value == Request(defs[n].queue, OUTBOX_PREFIX + row.id, row.envelope))
  {
    if n: nat :| IsFirst(defs, row.envelope.name, n) {
      PreparedBy(defs, row, n);
      forall m: nat | IsFirst(defs, row.envelope.name, m) ensures m == n {}
    } else {
      FoundNone(defs, row.envelope.name);
    }
  }

  lemma PreparedBy(defs: seq<Definition>, row: Row, n: nat)
    requires IsFirst(defs, row.envelope.name, n)
    ensures var prepared := Prepare(defs, row);
            && (prepared.Ok? <==> row.id != "" && COLON !in row.id && Accepts(defs[n], row.envelope))
            && (prepared.Ok? ==> prepared.value == Request(defs[n].queue, OUTBOX_PREFIX + row.id, row.envelope))
            && (prepared == Refused(VersionAheadOfUs) <==>
                defs[n].slots == [] && row.envelope.v > defs[n].version as real)
  {
    FoundFirst(defs, row.envelope.name, n);
    StepsRunOnceInOrder(defs[n], row.envelope.v, defs[n].version as real, row.envelope.data);
  }

  lemma {:induction false} FoundNone(defs: seq<Definition>, name: string)
    requires forall n: nat :: !IsFirst(defs, name, n)
    ensures FindDefinition(defs, name).None?
    decreases defs
  {
    if defs != [] {
      assert !IsFirst(defs, name, 0);
      forall n: nat ensures !IsFirst(defs[1..], name, n) {
        if IsFirst(defs[1..], name, n) { assert IsFirst(defs, name, n + 1); }
      }
      FoundNone(defs[1..], name);
    }
  }

  lemma {:induction false} FoundFirst(defs: seq<Definition>, name: string, n: nat)
    requires n < |defs| && defs[n].name == name && forall i | 0 <= i < n :: defs[i].name != name
    ensures FindDefinition(defs, name) == Some(defs[n])
    decreases n
  {
    if n > 0 { FoundFirst(defs[1..], name, n - 1); }
  }

  type Queue = map<NamedJob, Envelope>

  function KeyOf(r: Request): NamedJob {
    NamedJob(r.queue, r.jobId)
  }

  /** `add` overwrites nothing: an id the queue still holds answers with the job under it. */
  function Add(q: Queue, r: Request): Queue {
    if KeyOf(r) in q then q else q[KeyOf(r) := r.envelope]
  }

  function QueueAfter(q: Queue, defs: seq<Definition>, row: Row, answer: DriverAnswer): Queue {
    match Prepare(defs, row)
    case Refused(_) => q
    case Ok(r) => if answer.FailsBefore? then q else Add(q, r)
  }

  /** Why a row is left behind, `None` for one that reached the queue. */
  function LeftBehind(defs: seq<Definition>, row: Row, answer: DriverAnswer): Option<LeftReason> {
    match Prepare(defs, row)
    case Refused(why) => Some(why)
    case Ok(_) => if answer.Stores? then None else Some(DriverFailed)
  }

  // ---------------------------------------------------------------- one cycle

  /** Why each row of a batch is left behind; `answers` is what the driver would say at each place. */
  function Lefts(defs: seq<Definition>, claimed: seq<Row>, answers: seq<DriverAnswer>): seq<Option<LeftReason>>
    requires |claimed| == |answers|
  {
    seq(|claimed|, i requires 0 <= i < |claimed| => LeftBehind(defs, claimed[i], answers[i]))
  }

  /** The rows that were delivered, and the reports of those that were not, each in the order they
      were claimed. */
  function DeliveredIds(claimed: seq<Row>, lefts: seq<Option<LeftReason>>): seq<string>
    requires |claimed| == |lefts|
  {
    if claimed == [] then []
    else
      var n := |claimed| - 1;
      DeliveredIds(claimed[..n], lefts[..n]) + (if lefts[n].None? then [claimed[n].id] else [])
  }

  function Reports(claimed: seq<Row>, lefts: seq<Option<LeftReason>>): seq<Report>
    requires |claimed| == |lefts|
  {
    if claimed == [] then []
    else
      var n := |claimed| - 1;
      Reports(claimed[..n], lefts[..n])
      + (match lefts[n] case None => [] case Some(why) => [Report(claimed[n].id, why)])
  }

  function QueueAfterAll(q: Queue, defs: seq<Definition>, claimed: seq<Row>, answers: seq<DriverAnswer>): Queue
    requires |claimed| == |answers|
  {
    if claimed == [] then q
    else
      var n := |claimed| - 1;
      QueueAfter(QueueAfterAll(q, defs, claimed[..n], answers[..n]), defs, claimed[n], answers[n])
  }

  class Driver {
    var jobs: Queue
    /** How often `enqueue` was called. */
    var calls: nat

    constructor ()
      ensures jobs == map[] && calls == 0
    {
      jobs, calls := map[], 0;
    }

    method Enqueue(r: Request, answer: DriverAnswer) returns (ok: bool)
      modifies this
      ensures jobs == (if answer.FailsBefore? then old(jobs) else Add(old(jobs), r)) && calls == old(calls) + 1
      ensures ok == answer.Stores?
    {
      calls := calls + 1;
      if answer.FailsBefore? {
        return false;
      }
      if KeyOf(r) !in jobs {
        jobs := jobs[KeyOf(r) := r.envelope];
      }
      ok := answer.Stores?;
    }
  }

  method Deliver(driver: Driver, defs: seq<Definition>, row: Row, answer: DriverAnswer)
    returns (left: Option<LeftReason>)
    modifies driver
    ensures left == LeftBehind(defs, row, answer)
    ensures driver.jobs == QueueAfter(old(driver.jobs), defs, row, answer)
    ensures left == Some(DriverFailed) ==> driver.calls == old(driver.calls) + 1
    ensures left.None? || left == Some(DriverFailed) <==> driver.calls == old(driver.calls) + 1
    ensures driver.calls == old(driver.calls) || driver.calls == old(driver.calls) + 1
  {
    PrepareNeverBlamesTheDriver(defs, row);
    match Prepare(defs, row)
    case Refused(why) =>
      left := Some(why);
    case Ok(r) =>
      var ok := driver.Enqueue(r, answer);
      left := if ok then None else Some(DriverFailed);
  }

  /** Only what fails inside the driver is reported as the driver's. */
  lemma PrepareNeverBlamesTheDriver(defs: seq<Definition>, row: Row)
    ensures Prepare(defs, row) != Refused(DriverFailed)
  {
  }

  /** One cycle: deliver the claimed rows one by one, report the others, and give back the ids to
      mark; `marks` is whether the outbox is asked to mark anything. */
  method RunRelayCycle(driver: Driver, defs: seq<Definition>, claimed: seq<Row>, answers: seq<DriverAnswer>)
    returns (delivered: seq<string>, reports: seq<Report>, marks: bool)
    requires |claimed| == |answers|
    modifies driver
    ensures delivered == DeliveredIds(claimed, Lefts(defs, claimed, answers))
    ensures reports == Reports(claimed, Lefts(defs, claimed, answers))
    ensures driver.jobs == QueueAfterAll(old(driver.jobs), defs, claimed, answers)
    ensures marks <==> delivered != []
  {
    ghost var lefts := Lefts(defs, claimed, answers);
    delivered, reports := [], [];
    for i := 0 to |claimed|
      invariant delivered == DeliveredIds(claimed[..i], lefts[..i])
      invariant reports == Reports(claimed[..i], lefts[..i])
      invariant driver.jobs == QueueAfterAll(old(driver.jobs), defs, claimed[..i], answers[..i])
    {
      assert claimed[..i + 1][..i] == claimed[..i] && answers[..i + 1][..i] == answers[..i];
      assert lefts[..i + 1][..i] == lefts[..i];
      var left := Deliver(driver, defs, claimed[i], answers[i]);
      if left.None? {
        delivered := delivered + [claimed[i].id];
      } else {
        reports := reports + [Report(claimed[i].id, left.value)];
      }
    }
    assert claimed[..|claimed|] == claimed && answers[..|answers|] == answers && lefts[..|lefts|] == lefts;
    marks := delivered != [];
  }

  function IdsOf(rows: seq<Row>): seq<string> {
    if rows == [] then [] else IdsOf(rows[..|rows| - 1]) + [rows[|rows| - 1].id]
  }

  function ReportedIds(reports: seq<Report>): seq<string> {
    if reports == [] then [] else ReportedIds(reports[..|reports| - 1]) + [reports[|reports| - 1].rowId]
  }

  /** Two parts of a batch are marked and reported one after the other. */
  lemma {:induction false} CycleJoins(a: seq<Row>, b: seq<Row>, x: seq<Option<LeftReason>>, y: seq<Option<LeftReason>>)
    requires |a| == |x| && |b| == |y|
    ensures DeliveredIds(a + b, x + y) == DeliveredIds(a, x) + DeliveredIds(b, y)
    ensures Reports(a + b, x + y) == Reports(a, x) + Reports(b, y)
    decreases b
  {
    if b == [] {
      assert a + b == a && x + y == x;
      assert DeliveredIds(a, x) + [] == DeliveredIds(a, x) && Reports(a, x) + [] == Reports(a, x);
    } else {
      var n := |b| - 1;
      assert (a + b)[..|a + b| - 1] == a + b[..n] && (x + y)[..|x + y| - 1] == x + y[..n];
      CycleJoins(a, b[..n], x, y[..n]);
    }
  }

  /** One row is marked by its id, or reported by its id and its own reason. */
  lemma CycleOfOne(row: Row, left: Option<LeftReason>)
    ensures left.None? ==> DeliveredIds([row], [left]) == [row.id] && Reports([row], [left]) == []
    ensures left.Some? ==> DeliveredIds([row], [left]) == [] && Reports([row], [left]) == [Report(row.id, left.value)]
  {
    assert [row][..0] == [] && [left][..0] == [];
    assert DeliveredIds([], []) == [] && Reports([], []) == [];
  }

  /** So wherever a row stands in a batch, it is marked or reported between those before and those after it. */
  lemma RowInItsPlace(before: seq<Row>, row: Row, after: seq<Row>, x: seq<Option<LeftReason>>, left: Option<LeftReason>,
                      y: seq<Option<LeftReason>>)
    requires |before| == |x| && |after| == |y|
    ensures DeliveredIds(before + [row] + after, x + [left] + y)
            == DeliveredIds(before, x) + (if left.None? then [row.id] else []) + DeliveredIds(after, y)
    ensures Reports(before + [row] + after, x + [left] + y)
            == Reports(before, x) + (if left.Some? then [Report(row.id, left.value)] else []) + Reports(after, y)
  {
    CycleJoins(before + [row], after, x + [left], y);
    CycleJoins(before, [row], x, [left]);
    CycleOfOne(row, left);
  }

  /** A row that can be delivered: it names itself without a colon, and the definition of its name accepts it. */
  ghost predicate Deliverable(defs: seq<Definition>, row: Row) {
    && row.id != "" && COLON !in row.id
    && exists n: nat :: IsFirst(defs, row.envelope.name, n) && Accepts(defs[n], row.envelope)
  }

  /** Why a row is left behind, told by the row, the definitions and the driver's answer: the driver is blamed
      for a row that can be delivered and nothing else, the deploy for a newer payload of a job that waits on
      nothing, and everything else is the row's own. */
  lemma WhyARowIsLeft(defs: seq<Definition>, row: Row, answer: DriverAnswer)
    ensures var left := LeftBehind(defs, row, answer);
            var newer := exists n: nat :: IsFirst(defs, row.envelope.name, n) && defs[n].slots == []
                                          && row.envelope.v > defs[n].version as real;
            && (left == None <==> Deliverable(defs, row) && answer == Stores)
            && (left == Some(DriverFailed) <==> Deliverable(defs, row) && answer != Stores)
            && (left == Some(VersionAheadOfUs) <==> newer)
            && (left == Some(Undeliverable) <==> !Deliverable(defs, row) && !newer)
  {
    PreparedIff(defs, row);
    PrepareNeverBlamesTheDriver(defs, row);
    NewerIsRefused(defs, row);
  }

  lemma NewerIsRefused(defs: seq<Definition>, row: Row)
    ensures Prepare(defs, row) == Refused(VersionAheadOfUs) ==> !Deliverable(defs, row)
  {
    PreparedIff(defs, row);
  }

  /** What one row leaves in the queue, under the name its definition and its id give it: its own envelope unless
      the driver failed before storing or the name was taken, and nothing else is touched. */
  lemma WhatARowLeaves(q: Queue, defs: seq<Definition>, row: Row, n: nat, answer: DriverAnswer)
    requires IsFirst(defs, row.envelope.name, n)
    ensures var q' := QueueAfter(q, defs, row, answer);
            var job := NamedJob(defs[n].queue, "outbox-" + row.id);
            q' == (if row.id != "" && COLON !in row.id && Accepts(defs[n], row.envelope) && answer != FailsBefore
                   && job !in q
                   then q[job := row.envelope] else q)
  {
    PreparedBy(defs, row, n);
  }

  /** A cycle splits its batch: every claimed row is either to be marked or reported, once. */
  lemma {:induction false} CycleSplitsTheBatch(claimed: seq<Row>, lefts: seq<Option<LeftReason>>)
    requires |claimed| == |lefts|
    ensures multiset(DeliveredIds(claimed, lefts)) + multiset(ReportedIds(Reports(claimed, lefts)))
            == multiset(IdsOf(claimed))
    decreases claimed
  {
    if claimed != [] {
      var n := |claimed| - 1;
      var id := claimed[n].id;
      var delivered, reports := DeliveredIds(claimed[..n], lefts[..n]), Reports(claimed[..n], lefts[..n]);
      var ids := IdsOf(claimed[..n]);
      CycleSplitsTheBatch(claimed[..n], lefts[..n]);
      assert IdsOf(claimed) == ids + [id];
      match lefts[n]
      case None =>
        assert Reports(claimed, lefts) == reports;
        assert DeliveredIds(claimed, lefts) == delivered + [id];
      case Some(why) =>
        assert DeliveredIds(claimed, lefts) == delivered;
        OneReportMore(reports, Report(id, why));
    }
  }

  lemma OneReportMore(reports: seq<Report>, last: Report)
    ensures ReportedIds(reports + [last]) == ReportedIds(reports) + [last.rowId]
  {
    assert (reports + [last])[..|reports|] == reports;
  }

  /** Every row a cycle marks has a job of its own in the queue when it is marked, nothing that was
      in the queue is lost or overwritten, and the driver is blamed exactly for the rows it was
      asked to store and did not. */
  lemma {:induction false} MarkedRowsHaveJobs(q: Queue, defs: seq<Definition>, claimed: seq<Row>,
                                              answers: seq<DriverAnswer>, i: nat)
    requires |claimed| == |answers| && i < |claimed|
    ensures LeftBehind(defs, claimed[i], answers[i]).None? ==>
              && Prepare(defs, claimed[i]).Ok?
              && KeyOf(Prepare(defs, claimed[i]).value) in QueueAfterAll(q, defs, claimed, answers)
    ensures LeftBehind(defs, claimed[i], answers[i]) == Some(DriverFailed) <==>
              Prepare(defs, claimed[i]).Ok? && !answers[i].Stores?
    ensures q.Keys <= QueueAfterAll(q, defs, claimed, answers).Keys
    ensures forall key | key in q :: QueueAfterAll(q, defs, claimed, answers)[key] == q[key]
    decreases claimed
  {
    var n := |claimed| - 1;
    PrepareNeverBlamesTheDriver(defs, claimed[i]);
    if i < n {
      MarkedRowsHaveJobs(q, defs, claimed[..n], answers[..n], i);
    } else if n > 0 {
      MarkedRowsHaveJobs(q, defs, claimed[..n], answers[..n], 0);
    }
  }

  // ---------------------------------------------------------------- the loop

  datatype Event = Began | Ended

  /** Cycles begin and end by turns, so no two of them overlap. */
  predicate Alternates(events: seq<Event>) {
    forall i | 0 <= i < |events| :: events[i] == if i % 2 == 0 then Began else Ended
  }

  class RelayLoop {
    var cycle: bool
    var ticking: bool
    ghost var Events: seq<Event>

    ghost predicate Valid()
      reads this
    {
      Alternates(Events) && (cycle <==> |Events| % 2 == 1)
    }

    constructor ()
      ensures Valid() && ticking && cycle && Events == [Began]
    {
      cycle, ticking, Events := true, true, [Began];
    }

    method Tick()
      requires Valid()
      modifies this`cycle, this`Events
      ensures Valid()
      ensures Events == old(Events) + (if ticking && !old(cycle) then [Began] else [])
                && cycle == (old(cycle) || ticking)
    {
      if !ticking || cycle {
        return;
      }
      cycle := true;
      Events := Events + [Began];
    }

    method CycleEnds()
      requires Valid() && cycle
      modifies this`cycle, this`Events
      ensures Valid() && !cycle && Events == old(Events) + [Ended]
    {
      cycle := false;
      Events := Events + [Ended];
    }

    /** `close`: no tick after it begins a cycle, and it waits for the one under way. */
    method Close()
      requires Valid()
      modifies this
      ensures Valid() && !ticking && !cycle
      ensures Events == old(Events) + (if old(cycle) then [Ended] else [])
    {
      ticking := false;
      if cycle {
        CycleEnds();
      }
    }
  }
}
