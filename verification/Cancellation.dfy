/** Cancellation marks: a mark names one delivery of one job by how often the job had been handed
    out, a sweep collects the marks of the deliveries a runtime runs, and the two drivers keep
    them in two ways. */
module Cancellation {
  import opened JobId

  datatype Delivery = Delivery(id: string, started: nat)

  /** The marks, by queue and stored id. */
  type Marks = map<NamedJob, nat>

  const CANCEL_KEY_PREFIX := "jubs:cancel:{"
  const CANCEL_KEY_CLOSE := "}:"

  // ---------------------------------------------------------------- what a sweep takes

  predicate Named(m: Marks, queue: string, d: Delivery) {
    NamedJob(queue, d.id) in m && m[NamedJob(queue, d.id)] == d.started
  }

  /** The marks left after a list of deliveries was asked for, one after the other. */
  function Left(m: Marks, queue: string, running: seq<Delivery>): Marks {
    if running == [] then m
    else
      var d, before := running[|running| - 1], Left(m, queue, running[..|running| - 1]);
      if Named(before, queue, d) then before - {NamedJob(queue, d.id)} else before
  }

  /** The deliveries whose marks were taken, in the order they were asked for. */
  function Taken(m: Marks, queue: string, running: seq<Delivery>): seq<Delivery> {
    if running == [] then []
    else
      var init := running[..|running| - 1];
      var d := running[|running| - 1];
      Taken(m, queue, init) + (if Named(Left(m, queue, init), queue, d) then [d] else [])
  }

  lemma OneMoreAsked(m: Marks, queue: string, running: seq<Delivery>, n: nat)
    requires n < |running|
    ensures var before := Left(m, queue, running[..n]);
            && Left(m, queue, running[..n + 1])
               == (if Named(before, queue, running[n]) then before - {NamedJob(queue, running[n].id)} else before)
            && Taken(m, queue, running[..n + 1])
               == Taken(m, queue, running[..n]) + (if Named(before, queue, running[n]) then [running[n]] else [])
  {
    assert running[..n + 1][..n] == running[..n];
  }

  /** A mark goes exactly when its own delivery is among those asked for: never for another
      queue, another job, or another delivery of the same job. */
  lemma {:induction false} LeftIff(m: Marks, queue: string, running: seq<Delivery>, job: NamedJob)
    ensures job in Left(m, queue, running) <==>
            job in m && !(job.queue == queue && Delivery(job.storedId, m[job]) in running)
    ensures job in Left(m, queue, running) ==> Left(m, queue, running)[job] == m[job]
    decreases running
  {
    if running != [] {
      var init, d := running[..|running| - 1], running[|running| - 1];
      LeftIff(m, queue, init, job);
      LeftIff(m, queue, init, NamedJob(queue, d.id));
      assert running == init + [d];
    }
  }

  /** And a delivery is taken exactly when a mark names it, once however often it is listed. */
  lemma {:induction false} TakenIff(m: Marks, queue: string, running: seq<Delivery>, d: Delivery)
    ensures multiset(Taken(m, queue, running))[d] == if d in running && Named(m, queue, d) then 1 else 0
    decreases running
  {
    if running != [] {
      var init, last := running[..|running| - 1], running[|running| - 1];
      TakenIff(m, queue, init, d);
      LeftIff(m, queue, init, NamedJob(queue, last.id));
      assert running == init + [last];
    }
  }

  // ---------------------------------------------------------------- the Redis driver

  function MarkKey(job: NamedJob): string {
    CANCEL_KEY_PREFIX + job.queue + CANCEL_KEY_CLOSE + job.storedId
  }

  /** The text in use. */
  lemma MarkKeyByItsText(job: NamedJob)
    ensures MarkKey(job) == "jubs:cancel:{" + job.queue + "}:" + job.storedId
  {
  }

  lemma MarkKeysAreApart(a: NamedJob, b: NamedJob)
    requires COLON !in a.queue && COLON !in b.queue
    ensures MarkKey(a) == MarkKey(b) <==> a == b
  {
    var x, y := MarkKey(a), MarkKey(b);
    var n := |CANCEL_KEY_PREFIX|;
    assert x[n..] == (a.queue + "}") + [COLON] + a.storedId;
    assert y[n..] == (b.queue + "}") + [COLON] + b.storedId;
    JobIdsAreApart(NamedJob(a.queue + "}", a.storedId), NamedJob(b.queue + "}", b.storedId));
    assert (a.queue + "}")[..|a.queue|] == a.queue && (b.queue + "}")[..|b.queue|] == b.queue;
  }

  predicate AreArguments(argv: seq<string>, running: seq<Delivery>) {
    && |argv| == 2 * |running|
    && forall i | 0 <= i < |running| :: argv[2 * i] == running[i].id && argv[2 * i + 1] == Decimal(running[i].started)
  }

  /** The arguments one sweep sends: the ids and counts of the deliveries, in pairs. */
  function Arguments(running: seq<Delivery>): (argv: seq<string>)
    ensures AreArguments(argv, running)
  {
    if running == [] then []
    else
      var init := Arguments(running[..|running| - 1]);
      var d := running[|running| - 1];
      init + [d.id, Decimal(d.started)]
  }

  /** The marks as the text of each count. */
  function Texts(m: Marks): map<NamedJob, string> {
    map job | job in m :: Decimal(m[job])
  }

  /** The strings hold exactly these texts, each under its own key. */
  ghost predicate Keeps(strings: map<string, string>, texts: map<NamedJob, string>) {
    && (forall job | job in texts ::
          COLON !in job.queue && MarkKey(job) in strings && strings[MarkKey(job)] == texts[job])
    && strings.Keys == set job | job in texts :: MarkKey(job)
  }

  lemma KeepsPut(strings: map<string, string>, texts: map<NamedJob, string>, job: NamedJob, text: string)
    requires Keeps(strings, texts) && COLON !in job.queue
    ensures Keeps(strings[MarkKey(job) := text], texts[job := text])
  {
    forall other | other in texts { MarkKeysAreApart(other, job); }
    assert texts[job := text].Keys == texts.Keys + {job};
  }

  lemma KeepsReads(strings: map<string, string>, texts: map<NamedJob, string>, job: NamedJob)
    requires Keeps(strings, texts) && COLON !in job.queue
    ensures MarkKey(job) in strings <==> job in texts
    ensures job in texts ==> strings[MarkKey(job)] == texts[job]
  {
    forall other | other in texts { MarkKeysAreApart(other, job); }
  }

  lemma KeepsDrop(strings: map<string, string>, texts: map<NamedJob, string>, job: NamedJob)
    requires Keeps(strings, texts) && job in texts
    ensures Keeps(strings - {MarkKey(job)}, texts - {job})
  {
    forall other | other in texts { MarkKeysAreApart(other, job); }
    assert (texts - {job}).Keys == texts.Keys - {job};
  }

  /** The deliveries at a list of one-based positions; a position outside the list names none. */
  function AtPositions(running: seq<Delivery>, positions: seq<int>): seq<Delivery> {
    if positions == [] then []
    else
      var last := positions[|positions| - 1];
      AtPositions(running, positions[..|positions| - 1]) + (if 1 <= last <= |running| then [running[last - 1]] else [])
  }

  lemma OnePositionMore(running: seq<Delivery>, positions: seq<int>, k: nat)
    requires k < |running|
    ensures AtPositions(running, positions + [k + 1]) == AtPositions(running, positions) + [running[k]]
  {
    assert (positions + [k + 1])[..|positions|] == positions;
  }

  /** How far a scan has come after `k` deliveries. */
  ghost predicate Scanned(m: Marks, queue: string, running: seq<Delivery>, k: nat, taken: seq<int>, marked: Marks) {
    && k <= |running| && marked == Left(m, queue, running[..k])
    && AtPositions(running, taken) == Taken(m, queue, running[..k])
  }

  lemma ScansOn(m: Marks, queue: string, running: seq<Delivery>, k: nat, taken: seq<int>, marked: Marks)
    requires k < |running| && Scanned(m, queue, running, k, taken, marked)
    ensures if Named(marked, queue, running[k])
            then Scanned(m, queue, running, k + 1, taken + [k + 1], marked - {NamedJob(queue, running[k].id)})
            else Scanned(m, queue, running, k + 1, taken, marked)
  {
    OneMoreAsked(m, queue, running, k);
    OnePositionMore(running, taken, k);
  }

  class RedisMarks {
    var strings: map<string, string>
    ghost var Marked: Marks

    ghost predicate Valid()
      reads this
    {
      Keeps(strings, Texts(Marked))
    }

    constructor ()
      ensures Valid() && Marked == map[]
    {
      strings, Marked := map[], map[];
    }

    method RequestCancel(queue: string, d: Delivery)
      requires Valid() && COLON !in queue
      modifies this
      ensures Valid() && Marked == old(Marked)[NamedJob(queue, d.id) := d.started]
    {
      var job := NamedJob(queue, d.id);
      KeepsPut(strings, Texts(Marked), job, Decimal(d.started));
      assert Texts(Marked[job := d.started]) == Texts(Marked)[job := Decimal(d.started)];
      strings := strings[MarkKey(job) := Decimal(d.started)];
      Marked := Marked[job := d.started];
    }

    /** One turn of the scan: read the mark, and drop it if it names this delivery. */
    method TakeOne(prefix: string, id: string, count: string, ghost queue: string, ghost started: nat)
      returns (hit: bool)
      requires Valid() && COLON !in queue && prefix == CANCEL_KEY_PREFIX + queue + CANCEL_KEY_CLOSE
      requires count == Decimal(started)
      modifies this
      ensures Valid()
      ensures hit == Named(old(Marked), queue, Delivery(id, started))
      ensures Marked == if hit then old(Marked) - {NamedJob(queue, id)} else old(Marked)
    {
      ghost var job := NamedJob(queue, id);
      var key := prefix + id;
      assert key == MarkKey(job);
      KeepsReads(strings, Texts(Marked), job);
      if job in Marked { DecimalsAreApart(Marked[job], started); }
      hit := key in strings && strings[key] == count;
      if hit {
        KeepsDrop(strings, Texts(Marked), job);
        assert Texts(Marked - {job}) == Texts(Marked) - {job};
        strings, Marked := strings - {key}, Marked - {job};
      }
    }

    /** The turn of the scan at one pair of arguments, which notes the position it took. */
    method TakeAt(prefix: string, argv: seq<string>, index: nat, taken: seq<int>,
                  ghost m: Marks, ghost queue: string, ghost running: seq<Delivery>, ghost k: nat)
      returns (noted: seq<int>)
      requires Valid() && COLON !in queue && prefix == CANCEL_KEY_PREFIX + queue + CANCEL_KEY_CLOSE
      requires AreArguments(argv, running) && index == 2 * k + 1 && k < |running|
      requires Scanned(m, queue, running, k, taken, Marked)
      modifies this
      ensures Valid() && Scanned(m, queue, running, k + 1, noted, Marked)
    {
      ScansOn(m, queue, running, k, taken, Marked);
      assert argv[2 * k] == running[k].id && argv[2 * k + 1] == Decimal(running[k].started);
      var hit := TakeOne(prefix, argv[index - 1], argv[index], queue, running[k].started);
      noted := if hit then taken + [(index + 1) / 2] else taken;
    }

    /** The script: the one-based positions of the deliveries whose marks it took. */
    method TakeCancelledScript(prefix: string, argv: seq<string>, ghost queue: string, ghost running: seq<Delivery>)
      returns (taken: seq<int>)
      requires Valid() && COLON !in queue && prefix == CANCEL_KEY_PREFIX + queue + CANCEL_KEY_CLOSE
      requires AreArguments(argv, running)
      modifies this
      ensures Valid() && Scanned(old(Marked), queue, running, |running|, taken, Marked)
    {
      ghost var m := Marked;
      taken := [];
      var index := 1;
      ghost var k := 0;
      while index <= |argv|
        invariant index == 2 * k + 1 && Valid() && Scanned(m, queue, running, k, taken, Marked)
      {
        taken := TakeAt(prefix, argv, index, taken, m, queue, running, k);
        index, k := index + 2, k + 1;
      }
    }

    /** `takeCancelled`: the positions the script replied, mapped back to the deliveries. */
    method TakeCancelled(queue: string, running: seq<Delivery>) returns (cancelled: seq<Delivery>)
      requires Valid() && COLON !in queue
      modifies this
      ensures Valid()
      ensures cancelled == Taken(old(Marked), queue, running) && Marked == Left(old(Marked), queue, running)
    {
      if |running| == 0 {
        return [];
      }
      var prefix := CANCEL_KEY_PREFIX + queue + CANCEL_KEY_CLOSE;
      var positions := TakeCancelledScript(prefix, Arguments(running), queue, running);
      cancelled := AtPositions(running, positions);
      assert running[..|running|] == running;
    }
  }

  // ---------------------------------------------------------------- the memory driver

  /** The map holds exactly these marks, each under the id of its job. */
  ghost predicate MarksAre(marked: map<string, nat>, marks: Marks) {
    && (forall job | job in marks ::
          var id := ComposeJobId(job.queue, job.storedId);
          COLON !in job.queue && id in marked && marked[id] == marks[job])
    && (forall id | id in marked :: exists job :: job in marks && ComposeJobId(job.queue, job.storedId) == id)
  }

  lemma MarkGrows(marked: map<string, nat>, marks: Marks, job: NamedJob, started: nat)
    ensures MarksAre(marked, marks) && COLON !in job.queue ==>
              MarksAre(marked[ComposeJobId(job.queue, job.storedId) := started], marks[job := started])
  {
    if MarksAre(marked, marks) && COLON !in job.queue {
      var id := ComposeJobId(job.queue, job.storedId);
      var grown, grownMap := marks[job := started], marked[id := started];
      forall other | other in marks { JobIdsAreApart(other, job); }
      forall x | x in grownMap ensures exists j :: j in grown && ComposeJobId(j.queue, j.storedId) == x {
        if x == id { assert job in grown; } else {
          var j :| j in marks && ComposeJobId(j.queue, j.storedId) == x;
          assert j in grown;
        }
      }
    }
  }

  class MemoryMarks {
    var marked: map<string, nat>
    ghost var Marked: Marks

    ghost predicate Valid()
      reads this
    {
      MarksAre(marked, Marked)
    }

    constructor ()
      ensures Valid() && Marked == map[]
    {
      marked, Marked := map[], map[];
    }

    method RequestCancel(queue: string, d: Delivery)
      modifies this
      ensures marked == old(marked)[ComposeJobId(queue, d.id) := d.started]
      ensures old(Valid()) && COLON !in queue ==>
                Valid() && Marked == old(Marked)[NamedJob(queue, d.id) := d.started]
    {
      MarkGrows(marked, Marked, NamedJob(queue, d.id), d.started);
      marked := marked[ComposeJobId(queue, d.id) := d.started];
      Marked := Marked[NamedJob(queue, d.id) := d.started];
    }

    method TakeCancellation(queue: string, d: Delivery) returns (hit: bool)
      requires Valid() && COLON !in queue
      modifies this
      ensures Valid()
      ensures hit == Named(old(Marked), queue, d)
      ensures Marked == if hit then old(Marked) - {NamedJob(queue, d.id)} else old(Marked)
    {
      var key := ComposeJobId(queue, d.id);
      ghost var job := NamedJob(queue, d.id);
      forall other | other in Marked { JobIdsAreApart(other, job); }
      hit := key in marked && marked[key] == d.started;
      if hit {
        marked, Marked := marked - {key}, Marked - {job};
        forall id | id in marked ensures exists j :: j in Marked && ComposeJobId(j.queue, j.storedId) == id {
          var j :| j in old(Marked) && ComposeJobId(j.queue, j.storedId) == id;
          assert j in Marked;
        }
      }
    }

    /** `running.filter(...)`, which drops each mark as it meets its delivery. */
    method TakeCancelled(queue: string, running: seq<Delivery>) returns (cancelled: seq<Delivery>)
      requires Valid() && COLON !in queue
      modifies this
      ensures Valid()
      ensures cancelled == Taken(old(Marked), queue, running) && Marked == Left(old(Marked), queue, running)
    {
      cancelled := [];
      for k := 0 to |running|
        invariant Valid() && Marked == Left(old(Marked), queue, running[..k])
        invariant cancelled == Taken(old(Marked), queue, running[..k])
      {
        OneMoreAsked(old(Marked), queue, running, k);
        var hit := TakeCancellation(queue, running[k]);
        if hit {
          cancelled := cancelled + [running[k]];
        }
      }
      assert running[..|running|] == running;
    }
  }

  // ---------------------------------------------------------------- one sweep of a runtime

  datatype Live = Live(queue: string, delivery: Delivery)

  function OnQueue(live: seq<Live>, queue: string): seq<Delivery> {
    if live == [] then []
    else
      var last := live[|live| - 1];
      OnQueue(live[..|live| - 1], queue) + (if last.queue == queue then [last.delivery] else [])
  }

  lemma {:induction false} OnQueueHolds(live: seq<Live>, queue: string, d: Delivery)
    ensures d in OnQueue(live, queue) <==> Live(queue, d) in live
    decreases live
  {
    if live != [] {
      OnQueueHolds(live[..|live| - 1], queue, d);
      assert live == live[..|live| - 1] + [live[|live| - 1]];
    }
  }

  /** `liveByQueue`: the deliveries grouped by queue, each group in the order they started. */
  method LiveByQueue(live: seq<Live>) returns (byQueue: map<string, seq<Delivery>>)
    ensures forall q :: (q in byQueue <==> OnQueue(live, q) != []) && (q in byQueue ==> byQueue[q] == OnQueue(live, q))
  {
    byQueue := map[];
    for i := 0 to |live|
      invariant forall q ::
                  && (q in byQueue <==> OnQueue(live[..i], q) != [])
                  && (q in byQueue ==> byQueue[q] == OnQueue(live[..i], q))
    {
      assert live[..i + 1][..i] == live[..i];
      var running := if live[i].queue in byQueue then byQueue[live[i].queue] else [];
      byQueue := byQueue[live[i].queue := running + [live[i].delivery]];
    }
    assert live[..|live|] == live;
  }

  /** How far a sweep has come with the queues in `left` still to ask. */
  ghost predicate Swept(m: Marks, live: seq<Live>, left: set<string>, aborted: set<Live>, marked: Marks) {
    && (forall l :: l in aborted <==> l in live && l.queue !in left && Named(m, l.queue, l.delivery))
    && (forall job :: job in marked <==>
          job in m && !(job.queue !in left && Live(job.queue, Delivery(job.storedId, m[job])) in live))
    && (forall job | job in marked :: marked[job] == m[job])
  }

  lemma SweepsOn(m: Marks, live: seq<Live>, left: set<string>, aborted: set<Live>, marked: Marks, queue: string,
                 taken: seq<Delivery>, after: Marks)
    requires Swept(m, live, left, aborted, marked) && queue in left
    requires taken == Taken(marked, queue, OnQueue(live, queue)) && after == Left(marked, queue, OnQueue(live, queue))
    ensures Swept(m, live, left - {queue}, aborted + (set d | d in taken :: Live(queue, d)), after)
  {
    TookExactly(marked, queue, live, taken, after);
    forall d ensures Named(marked, queue, d) ==> Named(m, queue, d) {}
    forall d ensures Named(m, queue, d) ==> Named(marked, queue, d) {}
  }

  /** `sweepCancellations`: queue by queue, a sweep aborts exactly the running deliveries a mark names,
      and leaves exactly the marks that name none of them. */
  method SweepCancellations(marks: RedisMarks, live: seq<Live>) returns (aborted: set<Live>)
    requires marks.Valid() && forall l | l in live :: COLON !in l.queue
    modifies marks
    ensures marks.Valid()
    ensures forall l :: l in aborted <==> l in live && Named(old(marks.Marked), l.queue, l.delivery)
    ensures forall job :: job in marks.Marked <==>
              job in old(marks.Marked) && Live(job.queue, Delivery(job.storedId, old(marks.Marked)[job])) !in live
  {
    var byQueue := LiveByQueue(live);
    forall l | l in live ensures l.queue in byQueue { OnQueueHolds(live, l.queue, l.delivery); }
    var left := byQueue.Keys;
    ghost var m := marks.Marked;
    aborted := {};
    while left != {}
      invariant marks.Valid() && left <= byQueue.Keys && Swept(m, live, left, aborted, marks.Marked)
      decreases left
    {
      var queue :| queue in left;
      AQueueIsNamed(live, queue);
      ghost var before := marks.Marked;
      var cancelled := marks.TakeCancelled(queue, byQueue[queue]);
      SweepsOn(m, live, left, aborted, before, queue, cancelled, marks.Marked);
      aborted := aborted + set d | d in cancelled :: Live(queue, d);
      left := left - {queue};
    }
  }

  lemma {:induction false} AQueueIsNamed(live: seq<Live>, queue: string)
    requires OnQueue(live, queue) != []
    ensures exists l :: l in live && l.queue == queue
  {
    var d := OnQueue(live, queue)[0];
    OnQueueHolds(live, queue, d);
    assert Live(queue, d) in live;
  }

  lemma TookExactly(m: Marks, queue: string, live: seq<Live>, taken: seq<Delivery>, left: Marks)
    requires taken == Taken(m, queue, OnQueue(live, queue)) && left == Left(m, queue, OnQueue(live, queue))
    ensures forall d :: d in taken <==> Live(queue, d) in live && Named(m, queue, d)
    ensures forall job :: job in left <==>
              job in m && !(job.queue == queue && Live(queue, Delivery(job.storedId, m[job])) in live)
    ensures forall job | job in left :: left[job] == m[job]
  {
    forall d ensures d in taken <==> Live(queue, d) in live && Named(m, queue, d) {
      TakenIff(m, queue, OnQueue(live, queue), d);
      OnQueueHolds(live, queue, d);
      assert d in taken <==> multiset(taken)[d] > 0;
    }
    forall job
      ensures job in left <==> job in m && !(job.queue == queue && Live(queue, Delivery(job.storedId, m[job])) in live)
      ensures job in left ==> left[job] == m[job]
    {
      LeftIff(m, queue, OnQueue(live, queue), job);
      if job in m { OnQueueHolds(live, queue, Delivery(job.storedId, m[job])); }
    }
  }
}
