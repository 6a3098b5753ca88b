/** Any number of relays over one outbox, each of which may die between any two steps, with the
    definitions the relaying clients register held fixed. */
module OutboxRuns {
  import opened Errors
  import opened JobId
  import opened Definition
  import opened Outbox

  type RelayId = nat

  /** A relay in the middle of a cycle: its batch, the row it is at, the ids it will mark. */
  datatype Cycle = Cycle(batch: seq<Row>, next: nat, delivered: seq<string>)

  /** `stored` is every job ever created in the queue, in order; `marked` the rows marked delivered. */
  datatype State = State(
    rows: map<string, Envelope>, marked: set<string>, queue: Queue, stored: seq<NamedJob>, relays: map<RelayId, Cycle>)

  const INIT := State(map[], {}, map[], [], map[])

  datatype Action =
    | Commit(row: Row)
    | Claim(relay: RelayId, ids: seq<string>)
    | DeliverNext(relay: RelayId, answer: DriverAnswer)
    | Mark(relay: RelayId)
    | Dies(relay: RelayId)
    | RetentionSweeps(job: NamedJob)

  predicate Enabled(s: State, a: Action) {
    match a
    case Commit(row) => row.id !in s.rows
    case Claim(relay, ids) => relay !in s.relays && forall id | id in ids :: id in s.rows && id !in s.marked
    case DeliverNext(relay, _) => relay in s.relays && s.relays[relay].next < |s.relays[relay].batch|
    case Mark(relay) => relay in s.relays && s.relays[relay].next == |s.relays[relay].batch|
    case Dies(relay) => relay in s.relays
    case RetentionSweeps(job) => job in s.queue
  }

  function Batch(rows: map<string, Envelope>, ids: seq<string>): seq<Row>
    requires forall id | id in ids :: id in rows
  {
    seq(|ids|, i requires 0 <= i < |ids| => Row(ids[i], rows[ids[i]]))
  }

  /** The job a delivery creates: none when it is refused, fails before the store, or meets the job
      an earlier delivery of the same row stored. */
  function Created(defs: seq<Definition>, s: State, row: Row, answer: DriverAnswer): seq<NamedJob> {
    match Prepare(defs, row)
    case Refused(_) => []
    case Ok(r) => if answer.FailsBefore? || KeyOf(r) in s.queue then [] else [KeyOf(r)]
  }

  function Do(defs: seq<Definition>, s: State, a: Action): State {
    if !Enabled(s, a) then s
    else match a
      case Commit(row) => s.(rows := s.rows[row.id := row.envelope])
      case Claim(relay, ids) => s.(relays := s.relays[relay := Cycle(Batch(s.rows, ids), 0, [])])
      case DeliverNext(relay, answer) =>
        var r := s.relays[relay];
        var row := r.batch[r.next];
        var delivered := if LeftBehind(defs, row, answer).None? then r.delivered + [row.id] else r.delivered;
        s.(queue := QueueAfter(s.queue, defs, row, answer),
           stored := s.stored + Created(defs, s, row, answer),
           relays := s.relays[relay := Cycle(r.batch, r.next + 1, delivered)])
      case Mark(relay) =>
        s.(marked := s.marked + (set id | id in s.relays[relay].delivered), relays := s.relays - {relay})
      case Dies(relay) => s.(relays := s.relays - {relay})
      case RetentionSweeps(job) => s.(queue := s.queue - {job})
  }

  function Exec(defs: seq<Definition>, s: State, actions: seq<Action>): State
    decreases actions
  {
    if actions == [] then s else Exec(defs, Do(defs, s, actions[0]), actions[1..])
  }

  ghost predicate IsJobOf(defs: seq<Definition>, s: State, job: NamedJob, id: string) {
    id in s.rows && Prepare(defs, Row(id, s.rows[id])).Ok? && KeyOf(Prepare(defs, Row(id, s.rows[id])).value) == job
  }

  /** Two rows never have one job. */
  lemma JobsAreApart(defs: seq<Definition>, s: State, job: NamedJob, a: string, b: string)
    requires IsJobOf(defs, s, job, a) && IsJobOf(defs, s, job, b)
    ensures a == b
  {
    DerivedIdsAreApart(a, b);
  }

  ghost predicate HasARow(defs: seq<Definition>, s: State, job: NamedJob) {
    exists id :: IsJobOf(defs, s, job, id)
  }

  /** The row's own job was stored. */
  ghost predicate WasStored(defs: seq<Definition>, s: State, id: string) {
    exists job :: IsJobOf(defs, s, job, id) && job in s.stored
  }

  // ---------------------------------------------------------------- what every run keeps

  ghost predicate RelayOk(defs: seq<Definition>, s: State, r: Cycle) {
    && r.next <= |r.batch|
    && (forall i | 0 <= i < |r.batch| :: r.batch[i].id in s.rows && s.rows[r.batch[i].id] == r.batch[i].envelope)
    && (forall id | id in r.delivered :: WasStored(defs, s, id))
  }

  /** What is in the queue was stored, for a row and with that row's envelope; what is marked, or is about
      to be, was stored. Sweeps included. */
  ghost predicate Base(defs: seq<Definition>, s: State) {
    && (forall id | id in s.marked :: WasStored(defs, s, id))
    && (forall relay | relay in s.relays :: RelayOk(defs, s, s.relays[relay]))
    && (forall job | job in s.stored :: HasARow(defs, s, job))
    && (forall job | job in s.queue :: job in s.stored)
    && (forall job, id | job in s.queue && IsJobOf(defs, s, job, id) :: s.queue[job] == s.rows[id])
  }

  /** Rows are never changed and nothing stored is unstored. */
  predicate Grows(s: State, s': State) {
    && (forall id | id in s.rows :: id in s'.rows && s'.rows[id] == s.rows[id])
    && (forall job | job in s.stored :: job in s'.stored)
  }

  lemma StepGrows(defs: seq<Definition>, s: State, a: Action)
    ensures Grows(s, Do(defs, s, a))
  {
  }

  lemma StoredStays(defs: seq<Definition>, s: State, s': State)
    requires Grows(s, s')
    ensures forall job, id | IsJobOf(defs, s, job, id) :: IsJobOf(defs, s', job, id)
    ensures forall id | WasStored(defs, s, id) :: WasStored(defs, s', id)
    ensures forall job | HasARow(defs, s, job) :: HasARow(defs, s', job)
  {
    forall id | WasStored(defs, s, id) ensures WasStored(defs, s', id) {
      var job :| IsJobOf(defs, s, job, id) && job in s.stored;
      assert IsJobOf(defs, s', job, id);
    }
    forall job | HasARow(defs, s, job) ensures HasARow(defs, s', job) {
      var id :| IsJobOf(defs, s, job, id);
      assert IsJobOf(defs, s', job, id);
    }
  }

  /** One delivery: what it creates is the row's own job, and a row that is not left behind has its job
      stored. */
  lemma DeliveryStores(defs: seq<Definition>, s: State, row: Row, answer: DriverAnswer)
    requires row.id in s.rows && s.rows[row.id] == row.envelope
    ensures var q, created := QueueAfter(s.queue, defs, row, answer), Created(defs, s, row, answer);
            && (forall job :: job in q <==> job in s.queue || job in created)
            && (forall job | job in s.queue :: q[job] == s.queue[job])
            && (forall job | job in created ::
                  job !in s.queue && IsJobOf(defs, s, job, row.id) && q[job] == row.envelope)
            && |created| <= 1
            && (LeftBehind(defs, row, answer).None? ==> exists job :: IsJobOf(defs, s, job, row.id) && job in q)
  {
    assert Row(row.id, s.rows[row.id]) == row;
    if LeftBehind(defs, row, answer).None? {
      var job := KeyOf(Prepare(defs, row).value);
      assert IsJobOf(defs, s, job, row.id) && job in QueueAfter(s.queue, defs, row, answer);
    }
  }

  lemma DeliverKeepsBase(defs: seq<Definition>, s: State, relay: RelayId, answer: DriverAnswer)
    requires Base(defs, s) && Enabled(s, DeliverNext(relay, answer))
    ensures Base(defs, Do(defs, s, DeliverNext(relay, answer)))
  {
    var s' := Do(defs, s, DeliverNext(relay, answer));
    var r := s.relays[relay];
    var row := r.batch[r.next];
    assert RelayOk(defs, s, r);
    StepGrows(defs, s, DeliverNext(relay, answer));
    StoredStays(defs, s, s');
    DeliveryStores(defs, s, row, answer);
    if LeftBehind(defs, row, answer).None? {
      var job :| IsJobOf(defs, s, job, row.id) && job in s'.queue;
      assert IsJobOf(defs, s', job, row.id) && job in s'.stored;
      assert WasStored(defs, s', row.id);
    }
    forall other | other in s'.relays ensures RelayOk(defs, s', s'.relays[other]) {
      assert RelayOk(defs, s, s.relays[other]);
    }
    DeliveredJobsHaveRows(defs, s, s', row, answer);
  }

  lemma DeliveredJobsHaveRows(defs: seq<Definition>, s: State, s': State, row: Row, answer: DriverAnswer)
    requires Base(defs, s) && row.id in s.rows && s.rows[row.id] == row.envelope && s'.rows == s.rows
    requires s'.queue == QueueAfter(s.queue, defs, row, answer) && s'.stored == s.stored + Created(defs, s, row, answer)
    ensures forall job | job in s'.stored :: HasARow(defs, s', job)
    ensures forall job | job in s'.queue :: job in s'.stored
    ensures forall job, id | job in s'.queue && IsJobOf(defs, s', job, id) :: s'.queue[job] == s'.rows[id]
  {
    DeliveryStores(defs, s, row, answer);
    StoredStays(defs, s, s');
    forall job | job in Created(defs, s, row, answer) ensures HasARow(defs, s', job) {
      assert IsJobOf(defs, s', job, row.id);
    }
    forall job, id | job in s'.queue && IsJobOf(defs, s', job, id) ensures s'.queue[job] == s'.rows[id] {
      assert IsJobOf(defs, s, job, id);
      if job !in s.queue { JobsAreApart(defs, s, job, id, row.id); }
    }
  }

  lemma OthersKeepBase(defs: seq<Definition>, s: State, a: Action)
    requires Base(defs, s) && Enabled(s, a) && !a.DeliverNext?
    ensures Base(defs, Do(defs, s, a))
  {
    var s' := Do(defs, s, a);
    StepGrows(defs, s, a);
    StoredStays(defs, s, s');
    forall relay | relay in s'.relays ensures RelayOk(defs, s', s'.relays[relay]) {
      assert relay in s.relays ==> RelayOk(defs, s, s.relays[relay]);
    }
    forall id | id in s'.marked ensures WasStored(defs, s', id) {
      if id !in s.marked { assert RelayOk(defs, s, s.relays[a.relay]); }
    }
    forall job, id | job in s'.queue && IsJobOf(defs, s', job, id) ensures s'.queue[job] == s'.rows[id] {
      QueuedForItsRow(defs, s, s', job, id);
    }
  }

  lemma QueuedForItsRow(defs: seq<Definition>, s: State, s': State, job: NamedJob, id: string)
    requires Base(defs, s) && Grows(s, s') && job in s.queue && IsJobOf(defs, s', job, id)
    ensures IsJobOf(defs, s, job, id) && s.queue[job] == s'.rows[id]
  {
    StoredStays(defs, s, s');
    assert HasARow(defs, s, job);
    var own :| IsJobOf(defs, s, job, own);
    JobsAreApart(defs, s', job, id, own);
  }

  lemma StepKeepsBase(defs: seq<Definition>, s: State, a: Action)
    requires Base(defs, s)
    ensures Base(defs, Do(defs, s, a))
  {
    if Enabled(s, a) {
      if a.DeliverNext? { DeliverKeepsBase(defs, s, a.relay, a.answer); } else { OthersKeepBase(defs, s, a); }
    }
  }

  lemma {:induction false} EveryRunKeepsBase(defs: seq<Definition>, s: State, actions: seq<Action>)
    requires Base(defs, s)
    ensures Base(defs, Exec(defs, s, actions))
    decreases actions
  {
    if actions != [] {
      StepKeepsBase(defs, s, actions[0]);
      EveryRunKeepsBase(defs, Do(defs, s, actions[0]), actions[1..]);
    }
  }

  // ---------------------------------------------------------------- which sweeps are harmless

  /** A relay has the row still to come in its batch. */
  predicate Ahead(s: State, id: string) {
    exists relay | relay in s.relays :: AheadIn(s.relays[relay], id)
  }

  predicate AheadIn(r: Cycle, id: string) {
    exists i | r.next <= i < |r.batch| :: r.batch[i].id == id
  }

  /** Nothing will deliver the job's row again: it is marked, and no relay has it to come. */
  ghost predicate IsSpent(defs: seq<Definition>, s: State, job: NamedJob) {
    forall id | IsJobOf(defs, s, job, id) :: id in s.marked && !Ahead(s, id)
  }

  ghost predicate SweepsASpentJob(defs: seq<Definition>, s: State, a: Action) {
    a.RetentionSweeps? && a.job in s.queue ==> IsSpent(defs, s, a.job)
  }

  ghost predicate OnlySpentSwept(defs: seq<Definition>, s: State, actions: seq<Action>)
    decreases actions
  {
    || actions == []
    || (SweepsASpentJob(defs, s, actions[0]) && OnlySpentSwept(defs, Do(defs, s, actions[0]), actions[1..]))
  }

  predicate Distinct(jobs: seq<NamedJob>) {
    forall i, j | 0 <= i < j < |jobs| :: jobs[i] != jobs[j]
  }

  ghost predicate Inv(defs: seq<Definition>, s: State) {
    && Base(defs, s)
    && Distinct(s.stored)
    && (forall job | job in s.stored && job !in s.queue :: IsSpent(defs, s, job))
  }

  /** A row that is marked is not claimed again, so one that is not ahead stays so. */
  lemma PassedStaysPassed(defs: seq<Definition>, s: State, a: Action, id: string)
    requires id in s.marked && !Ahead(s, id)
    ensures id in Do(defs, s, a).marked && !Ahead(Do(defs, s, a), id)
  {
    var s' := Do(defs, s, a);
    forall relay | relay in s'.relays ensures !AheadIn(s'.relays[relay], id) {
      assert relay in s.relays ==> !AheadIn(s.relays[relay], id);
    }
  }

  lemma SpentStays(defs: seq<Definition>, s: State, a: Action, job: NamedJob)
    requires Base(defs, s) && job in s.stored && IsSpent(defs, s, job)
    ensures IsSpent(defs, Do(defs, s, a), job)
  {
    var s' := Do(defs, s, a);
    StepGrows(defs, s, a);
    StoredStays(defs, s, s');
    forall id | IsJobOf(defs, s', job, id) ensures id in s'.marked && !Ahead(s', id) {
      assert HasARow(defs, s, job);
      var own :| IsJobOf(defs, s, job, own);
      JobsAreApart(defs, s', job, id, own);
      PassedStaysPassed(defs, s, a, id);
    }
  }

  /** A delivery creates a job only if none was ever stored for its row. */
  lemma CreatesOnlyNew(defs: seq<Definition>, s: State, relay: RelayId, answer: DriverAnswer)
    requires Inv(defs, s) && Enabled(s, DeliverNext(relay, answer))
    ensures var r := s.relays[relay];
            forall job | job in Created(defs, s, r.batch[r.next], answer) :: job !in s.stored
  {
    var r := s.relays[relay];
    var row := r.batch[r.next];
    assert RelayOk(defs, s, r);
    DeliveryStores(defs, s, row, answer);
    assert AheadIn(r, row.id);
    assert Ahead(s, row.id);
  }

  lemma StepKeepsInv(defs: seq<Definition>, s: State, a: Action)
    requires Inv(defs, s) && SweepsASpentJob(defs, s, a)
    ensures Inv(defs, Do(defs, s, a))
  {
    var s' := Do(defs, s, a);
    StepKeepsBase(defs, s, a);
    StoredStayApart(defs, s, a);
    forall job | job in s'.stored && job !in s'.queue ensures IsSpent(defs, s', job) {
      WasSpent(defs, s, a, job);
      SpentStays(defs, s, a, job);
    }
  }

  lemma StoredStayApart(defs: seq<Definition>, s: State, a: Action)
    requires Inv(defs, s)
    ensures Distinct(Do(defs, s, a).stored)
  {
    if a.DeliverNext? && Enabled(s, a) {
      var r := s.relays[a.relay];
      CreatesOnlyNew(defs, s, a.relay, a.answer);
      var created := Created(defs, s, r.batch[r.next], a.answer);
      assert |created| <= 1;
      if created != [] { assert created[0] in created; }
    }
  }

  lemma WasSpent(defs: seq<Definition>, s: State, a: Action, job: NamedJob)
    requires Inv(defs, s) && SweepsASpentJob(defs, s, a)
    requires job in Do(defs, s, a).stored && job !in Do(defs, s, a).queue
    ensures job in s.stored && IsSpent(defs, s, job)
  {
    if a.DeliverNext? && Enabled(s, a) {
      var r := s.relays[a.relay];
      assert RelayOk(defs, s, r);
      DeliveryStores(defs, s, r.batch[r.next], a.answer);
    }
  }

  lemma {:induction false} RunKeepsInv(defs: seq<Definition>, s: State, actions: seq<Action>)
    requires Inv(defs, s) && OnlySpentSwept(defs, s, actions)
    ensures Inv(defs, Exec(defs, s, actions))
    decreases actions
  {
    if actions != [] {
      StepKeepsInv(defs, s, actions[0]);
      RunKeepsInv(defs, Do(defs, s, actions[0]), actions[1..]);
    }
  }

  /** At most one job was ever stored for each row, and none for anything else. */
  ghost predicate StoredOncePerRow(defs: seq<Definition>, s: State) {
    && (forall i, j, id | 0 <= i < |s.stored| && 0 <= j < |s.stored|
                          && IsJobOf(defs, s, s.stored[i], id) && IsJobOf(defs, s, s.stored[j], id) :: i == j)
    && (forall job | job in s.stored :: HasARow(defs, s, job))
  }

  /** Over all runs of any relays, dying where they like, in which retention sweeps only jobs of rows that
      are marked and that no relay still has to come: at most one job was ever stored for each row, however
      often it was claimed and delivered, and the job of every marked row was stored. */
  lemma OneJobPerRow(defs: seq<Definition>, actions: seq<Action>)
    requires OnlySpentSwept(defs, INIT, actions)
    ensures StoredOncePerRow(defs, Exec(defs, INIT, actions))
    ensures forall id | id in Exec(defs, INIT, actions).marked :: WasStored(defs, Exec(defs, INIT, actions), id)
  {
    RunKeepsInv(defs, INIT, actions);
  }

  // ---------------------------------------------------------------- every other sweep is not

  ghost predicate From(defs: seq<Definition>, s: State, s': State) {
    exists actions :: Exec(defs, s, actions) == s'
  }

  lemma {:induction false} ExecAppends(defs: seq<Definition>, s: State, actions: seq<Action>, a: Action)
    ensures Exec(defs, s, actions + [a]) == Do(defs, Exec(defs, s, actions), a)
    decreases actions
  {
    if actions == [] {
      assert Exec(defs, Do(defs, s, a), []) == Do(defs, s, a);
      assert (actions + [a])[1..] == [];
    } else {
      assert (actions + [a])[1..] == actions[1..] + [a];
      ExecAppends(defs, Do(defs, s, actions[0]), actions[1..], a);
    }
  }

  lemma OneMore(defs: seq<Definition>, s0: State, s: State, a: Action) returns (s': State)
    requires From(defs, s0, s)
    ensures s' == Do(defs, s, a) && From(defs, s0, s')
  {
    var actions :| Exec(defs, s0, actions) == s;
    ExecAppends(defs, s0, actions, a);
    s' := Do(defs, s, a);
  }

  /** A relay goes on to a row of its batch, storing nothing on the way. */
  lemma {:induction false} ComesTo(defs: seq<Definition>, s0: State, s: State, relay: RelayId, i: nat)
    returns (s': State)
    requires From(defs, s0, s) && relay in s.relays && s.relays[relay].next <= i < |s.relays[relay].batch|
    ensures From(defs, s0, s') && s'.rows == s.rows && s'.queue == s.queue && s'.stored == s.stored
    ensures relay in s'.relays && s'.relays[relay].next == i && s'.relays[relay].batch == s.relays[relay].batch
    decreases i - s.relays[relay].next
  {
    s' := s;
    if s.relays[relay].next < i {
      s' := OneMore(defs, s0, s, DeliverNext(relay, FailsBefore));
      s' := ComesTo(defs, s0, s', relay, i);
    }
  }

  /** A relay has come to a row whose job is not in the queue, and delivers it. */
  lemma StoresIt(defs: seq<Definition>, s0: State, s: State, relay: RelayId, job: NamedJob, id: string)
    returns (s': State)
    requires From(defs, s0, s) && relay in s.relays && s.relays[relay].next < |s.relays[relay].batch|
    requires IsJobOf(defs, s, job, id) && job !in s.queue
    requires s.relays[relay].batch[s.relays[relay].next] == Row(id, s.rows[id])
    ensures From(defs, s0, s') && s'.stored == s.stored + [job] && s'.rows == s.rows
  {
    s' := OneMore(defs, s0, s, DeliverNext(relay, Stores));
  }

  /** An unmarked row is claimed by one more relay; one that is ahead is come to. */
  lemma ComesUp(defs: seq<Definition>, s: State, id: string) returns (s': State, relay: RelayId)
    requires Base(defs, s) && id in s.rows && (id !in s.marked || Ahead(s, id))
    ensures From(defs, s, s') && s'.rows == s.rows && s'.queue == s.queue && s'.stored == s.stored
    ensures relay in s'.relays && s'.relays[relay].next < |s'.relays[relay].batch|
    ensures s'.relays[relay].batch[s'.relays[relay].next] == Row(id, s.rows[id])
  {
    assert Exec(defs, s, []) == s;
    if id !in s.marked {
      relay := AnotherNumber(s.relays.Keys);
      s' := OneMore(defs, s, s, Claim(relay, [id]));
    } else {
      relay :| relay in s.relays && AheadIn(s.relays[relay], id);
      var r := s.relays[relay];
      assert RelayOk(defs, s, r);
      var i :| r.next <= i < |r.batch| && r.batch[i].id == id;
      s' := ComesTo(defs, s, s, relay, i);
    }
  }

  /** And only those sweeps are harmless: after a sweep of any other job, in any reachable state, the run
      goes on to store that job a second time for its row. */
  lemma UnspentSweepStoresTwice(defs: seq<Definition>, actions: seq<Action>, job: NamedJob)
    requires job in Exec(defs, INIT, actions).queue && !IsSpent(defs, Exec(defs, INIT, actions), job)
    ensures exists s' :: && From(defs, Do(defs, Exec(defs, INIT, actions), RetentionSweeps(job)), s')
                         && !StoredOncePerRow(defs, s')
  {
    EveryRunKeepsBase(defs, INIT, actions);
    var s' := StoredAgain(defs, Exec(defs, INIT, actions), job);
  }

  lemma StoredAgain(defs: seq<Definition>, s: State, job: NamedJob) returns (s': State)
    requires Base(defs, s) && job in s.queue && !IsSpent(defs, s, job)
    ensures From(defs, Do(defs, s, RetentionSweeps(job)), s') && !StoredOncePerRow(defs, s')
  {
    var id :| IsJobOf(defs, s, job, id) && (id !in s.marked || Ahead(s, id));
    var swept := Do(defs, s, RetentionSweeps(job));
    StepKeepsBase(defs, s, RetentionSweeps(job));
    if Ahead(s, id) { AheadOfTheSweep(s, swept, id); }
    var up, relay := ComesUp(defs, swept, id);
    assert IsJobOf(defs, up, job, id);
    s' := StoresIt(defs, swept, up, relay, job, id);
    StoredTwice(defs, s', s.stored, job, id);
  }

  lemma AheadOfTheSweep(s: State, swept: State, id: string)
    requires swept.relays == s.relays && Ahead(s, id)
    ensures Ahead(swept, id)
  {
  }

  lemma StoredTwice(defs: seq<Definition>, s: State, before: seq<NamedJob>, job: NamedJob, id: string)
    requires s.stored == before + [job] && job in before && IsJobOf(defs, s, job, id)
    ensures !StoredOncePerRow(defs, s)
  {
    var first :| 0 <= first < |before| && before[first] == job;
    assert s.stored[first] == job && s.stored[|before|] == job;
  }

  /** Every row that can be delivered has such a sweep: its job is stored, and the relay has not marked the
      row yet. */
  lemma UnspentJobIsReached(defs: seq<Definition>, row: Row)
    requires Prepare(defs, row).Ok?
    ensures var s := Exec(defs, INIT, [Commit(row), Claim(0, [row.id]), DeliverNext(0, Stores)]);
            var job := KeyOf(Prepare(defs, row).value);
            job in s.queue && !IsSpent(defs, s, job)
  {
    var commit, claim, deliver := Commit(row), Claim(0, [row.id]), DeliverNext(0, Stores);
    var s1 := Do(defs, INIT, commit);
    var s2 := Do(defs, s1, claim);
    assert s2.relays[0] == Cycle([row], 0, []);
    var s3 := Do(defs, s2, deliver);
    assert [commit, claim, deliver][1..] == [claim, deliver] && [claim, deliver][1..] == [deliver];
    assert [deliver][1..] == [] && Exec(defs, s3, []) == s3;
    assert Exec(defs, s2, [deliver]) == Exec(defs, s3, []);
    assert Exec(defs, s1, [claim, deliver]) == Exec(defs, s2, [deliver]);
    assert Row(row.id, s3.rows[row.id]) == row;
    assert IsJobOf(defs, s3, KeyOf(Prepare(defs, row).value), row.id) && row.id !in s3.marked;
  }

  /** One such row in full: a definition that accepts everything, and a run that stores its row twice. */
  lemma SweptRowIsStoredTwice()
    ensures exists defs: seq<Definition>, actions :: !StoredOncePerRow(defs, Exec(defs, INIT, actions))
  {
    var d := Definition("job", "queue", 1, map[], (v: Value) => Some(v), None, (v: Value) => false, []);
    var row := Row("1", Envelope(1.0, "job", Null, Relay, None));
    assert Prepare([d], row).Ok?;
    UnspentJobIsReached([d], row);
    var job := KeyOf(Prepare([d], row).value);
    var actions := [Commit(row), Claim(0, [row.id]), DeliverNext(0, Stores)];
    var s := Exec([d], INIT, actions);
    UnspentSweepStoresTwice([d], actions, job);
    var s' :| From([d], Do([d], s, RetentionSweeps(job)), s') && !StoredOncePerRow([d], s');
    var more :| Exec([d], Do([d], s, RetentionSweeps(job)), more) == s';
    ExecAppends([d], INIT, actions, RetentionSweeps(job));
    ExecJoins([d], INIT, actions + [RetentionSweeps(job)], more);
  }

  lemma {:induction false} ExecJoins(defs: seq<Definition>, s: State, xs: seq<Action>, ys: seq<Action>)
    ensures Exec(defs, s, xs + ys) == Exec(defs, Exec(defs, s, xs), ys)
    decreases xs
  {
    if xs == [] {
      assert xs + ys == ys;
    } else {
      assert (xs + ys)[1..] == xs[1..] + ys;
      ExecJoins(defs, Do(defs, s, xs[0]), xs[1..], ys);
    }
  }

  // ---------------------------------------------------------------- a cycle, undisturbed

  function Delivers(relay: RelayId, answers: seq<DriverAnswer>): seq<Action> {
    seq(|answers|, i requires 0 <= i < |answers| => DeliverNext(relay, answers[i]))
  }

  /** A relay as far as `n` rows of its batch. */
  ghost predicate IsAt(defs: seq<Definition>, q: Queue, s: State, relay: RelayId, batch: seq<Row>,
                       answers: seq<DriverAnswer>, n: nat)
  {
    && n <= |batch| == |answers| && relay in s.relays
    && s.relays[relay] == Cycle(batch, n, DeliveredIds(batch[..n], Lefts(defs, batch, answers)[..n]))
    && s.queue == QueueAfterAll(q, defs, batch[..n], answers[..n])
  }

  lemma OneRowOn(defs: seq<Definition>, q: Queue, s: State, relay: RelayId, batch: seq<Row>,
                 answers: seq<DriverAnswer>, n: nat)
    requires IsAt(defs, q, s, relay, batch, answers, n) && n < |batch|
    ensures IsAt(defs, q, Do(defs, s, DeliverNext(relay, answers[n])), relay, batch, answers, n + 1)
  {
    var lefts := Lefts(defs, batch, answers);
    assert batch[..n + 1][..n] == batch[..n] && answers[..n + 1][..n] == answers[..n];
    assert lefts[..n + 1][..n] == lefts[..n];
    assert DeliveredIds(batch[..n], lefts[..n]) + [] == DeliveredIds(batch[..n], lefts[..n]);
  }

  lemma {:induction false} DeliversOn(defs: seq<Definition>, q: Queue, s: State, relay: RelayId, batch: seq<Row>,
                                      answers: seq<DriverAnswer>, n: nat)
    requires n <= |answers| && IsAt(defs, q, s, relay, batch, answers, 0)
    ensures IsAt(defs, q, Exec(defs, s, Delivers(relay, answers[..n])), relay, batch, answers, n)
    ensures Exec(defs, s, Delivers(relay, answers[..n])).marked == s.marked
    decreases n
  {
    if n > 0 {
      DeliversOn(defs, q, s, relay, batch, answers, n - 1);
      OneRowOn(defs, q, Exec(defs, s, Delivers(relay, answers[..n - 1])), relay, batch, answers, n - 1);
      assert Delivers(relay, answers[..n]) == Delivers(relay, answers[..n - 1]) + [DeliverNext(relay, answers[n - 1])];
      ExecAppends(defs, s, Delivers(relay, answers[..n - 1]), DeliverNext(relay, answers[n - 1]));
    } else {
      assert answers[..0] == [] && Delivers(relay, []) == [];
    }
  }

  /** A relay that is left alone does what one cycle does: it leaves the queue a cycle leaves, and marks the rows
      a cycle gives back, and no other. */
  lemma AloneItIsACycle(defs: seq<Definition>, s: State, relay: RelayId, batch: seq<Row>, answers: seq<DriverAnswer>)
    requires relay in s.relays && s.relays[relay] == Cycle(batch, 0, []) && |answers| == |batch|
    ensures var s' := Exec(defs, s, Delivers(relay, answers) + [Mark(relay)]);
            && s'.queue == QueueAfterAll(s.queue, defs, batch, answers)
            && s'.marked == s.marked + (set id | id in DeliveredIds(batch, Lefts(defs, batch, answers)))
            && relay !in s'.relays
  {
    var n := |batch|;
    var lefts := Lefts(defs, batch, answers);
    assert batch[..0] == [] && lefts[..0] == [] && answers[..0] == [];
    DeliversOn(defs, s.queue, s, relay, batch, answers, n);
    assert answers[..n] == answers && batch[..n] == batch && lefts[..n] == lefts;
    ExecAppends(defs, s, Delivers(relay, answers), Mark(relay));
  }

  /** A relay that dies leaves the rows, the marks and the jobs as they are, and its rows to be claimed. */
  lemma DeathLeavesTheRows(defs: seq<Definition>, s: State, relay: RelayId, ids: seq<string>)
    requires forall id | id in ids :: id in s.rows && id !in s.marked
    ensures var s' := Do(defs, s, Dies(relay));
            s'.rows == s.rows && s'.marked == s.marked && s'.queue == s.queue && Enabled(s', Claim(relay, ids))
  {
  }

  // ---------------------------------------------------------------- with no sweep at all

  predicate NothingSwept(actions: seq<Action>) {
    forall a | a in actions :: !a.RetentionSweeps?
  }

  /** The row's own job is in the queue, carrying the row's own envelope. */
  ghost predicate HasItsJob(defs: seq<Definition>, s: State, id: string) {
    exists job :: IsJobOf(defs, s, job, id) && job in s.queue && s.queue[job] == s.rows[id]
  }

  predicate AllQueued(s: State) {
    forall job | job in s.stored :: job in s.queue
  }

  lemma StepKeepsQueued(defs: seq<Definition>, s: State, a: Action)
    requires Base(defs, s) && AllQueued(s) && !a.RetentionSweeps?
    ensures AllQueued(Do(defs, s, a))
  {
    if a.DeliverNext? && Enabled(s, a) {
      var r := s.relays[a.relay];
      assert RelayOk(defs, s, r);
      DeliveryStores(defs, s, r.batch[r.next], a.answer);
    }
  }

  lemma {:induction false} StoredStaysQueued(defs: seq<Definition>, s: State, actions: seq<Action>)
    requires Base(defs, s) && AllQueued(s) && NothingSwept(actions)
    ensures AllQueued(Exec(defs, s, actions))
    decreases actions
  {
    if actions != [] {
      StepKeepsBase(defs, s, actions[0]);
      StepKeepsQueued(defs, s, actions[0]);
      assert forall b | b in actions[1..] :: b in actions;
      StoredStaysQueued(defs, Do(defs, s, actions[0]), actions[1..]);
    }
  }

  /** While nothing is swept, every marked row has its own job in the queue. */
  lemma MarkedRowsStayQueued(defs: seq<Definition>, actions: seq<Action>, id: string)
    requires NothingSwept(actions) && id in Exec(defs, INIT, actions).marked
    ensures HasItsJob(defs, Exec(defs, INIT, actions), id)
  {
    EveryRunKeepsBase(defs, INIT, actions);
    StoredStaysQueued(defs, INIT, actions);
    var s := Exec(defs, INIT, actions);
    assert WasStored(defs, s, id);
    var job :| IsJobOf(defs, s, job, id) && job in s.stored;
    assert job in s.queue && s.queue[job] == s.rows[id];
  }
}
