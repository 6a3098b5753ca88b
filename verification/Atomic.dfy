/** The atomic block: enqueues held in a scope, settled once the block resolves, and any number of
    blocks running at once. */
module Atomic {
  import opened Errors

  /** An enqueue as a block sees it: a row of the outbox can hold neither a flow nor a job whose
      delivery is unique. */
  datatype Job = Job(name: string, flow: bool, unique: bool)

  predicate Writable(j: Job) { !j.flow && !j.unique }

  // ---------------------------------------------------------------- one block, step by step

  /** What the code inside a block does: enqueues, blocks inside it, work whose failure it catches,
      and throwing. */
  datatype Stmt = Enqueue(job: Job) | Nested(body: seq<Stmt>) | Caught(body: seq<Stmt>) | Throw

  datatype Collected = Collected(jobs: seq<Job>, resolves: bool)

  /** The enqueues a block is left holding, in the order they reached its buffer, and whether it
      resolves. A nested block joins the outer one, and one that throws leaves behind what it had
      enqueued, even when the throw is caught. */
  function Collect(stmts: seq<Stmt>, writes: bool): Collected {
    if stmts == [] then Collected([], true)
    else
      var first := CollectOne(stmts[0], writes);
      if !first.resolves then first
      else
        var rest := Collect(stmts[1..], writes);
        Collected(first.jobs + rest.jobs, rest.resolves)
  }

  function CollectOne(stmt: Stmt, writes: bool): Collected {
    match stmt
    case Enqueue(job) => if writes && !Writable(job) then Collected([], false) else Collected([job], true)
    case Nested(body) => Collect(body, writes)
    case Caught(body) => Collected(Collect(body, writes).jobs, true)
    case Throw => Collected([], false)
  }

  lemma {:induction false} CollectJoins(xs: seq<Stmt>, ys: seq<Stmt>, writes: bool)
    ensures var x, y := Collect(xs, writes), Collect(ys, writes);
            Collect(xs + ys, writes) == (if x.resolves then Collected(x.jobs + y.jobs, y.resolves) else x)
    decreases xs
  {
    if xs == [] {
      assert xs + ys == ys;
      assert [] + Collect(ys, writes).jobs == Collect(ys, writes).jobs;
    } else {
      assert (xs + ys)[1..] == xs[1..] + ys;
      CollectJoins(xs[1..], ys, writes);
      var first, x, y := CollectOne(xs[0], writes), Collect(xs[1..], writes), Collect(ys, writes);
      assert first.jobs + (x.jobs + y.jobs) == first.jobs + x.jobs + y.jobs;
    }
  }

  /** The program throws, and nothing in it catches that: some statement of it does, an enqueue the outbox cannot
      take among them, and not inside work whose failure is caught. */
  predicate ThrowsOut(stmts: seq<Stmt>, writes: bool) {
    exists i | 0 <= i < |stmts| :: StmtThrows(stmts[i], writes)
  }

  predicate StmtThrows(stmt: Stmt, writes: bool) {
    match stmt
    case Enqueue(job) => writes && (job.flow || job.unique)
    case Nested(body) => ThrowsOut(body, writes)
    case Caught(_) => false
    case Throw => true
  }

  /** A block resolves if and only if nothing in it throws out of it. */
  lemma {:induction false} ResolvesIff(stmts: seq<Stmt>, writes: bool)
    ensures Collect(stmts, writes).resolves <==> !ThrowsOut(stmts, writes)
    decreases stmts
  {
    if stmts != [] {
      ResolvesOneIff(stmts[0], writes);
      ResolvesIff(stmts[1..], writes);
      assert forall i | 1 <= i < |stmts| :: stmts[i] == stmts[1..][i - 1];
      if ThrowsOut(stmts[1..], writes) {
        var i :| 0 <= i < |stmts[1..]| && StmtThrows(stmts[1..][i], writes);
        assert StmtThrows(stmts[i + 1], writes);
      }
    }
  }

  lemma {:induction false} ResolvesOneIff(stmt: Stmt, writes: bool)
    ensures CollectOne(stmt, writes).resolves <==> !StmtThrows(stmt, writes)
    decreases stmt
  {
    match stmt
    case Nested(body) => ResolvesIff(body, writes);
    case _ =>
  }

  lemma JoinsThree(before: seq<Stmt>, stmt: Stmt, after: seq<Stmt>, writes: bool)
    requires !ThrowsOut(before, writes)
    ensures var b, a := Collect(before, writes), Collect(after, writes);
            var one := CollectOne(stmt, writes);
            Collect(before + [stmt] + after, writes)
            == (if one.resolves then Collected(b.jobs + one.jobs + a.jobs, a.resolves)
                else Collected(b.jobs + one.jobs, false))
  {
    ResolvesIff(before, writes);
    CollectJoins(before + [stmt], after, writes);
    CollectJoins(before, [stmt], writes);
    assert [stmt][1..] == [] && CollectOne(stmt, writes).jobs + [] == CollectOne(stmt, writes).jobs;
  }

  /** Wherever a throw is reached, what came before it is all the block holds, and the block throws. */
  lemma ThrowEndsTheBlock(before: seq<Stmt>, after: seq<Stmt>, writes: bool)
    requires !ThrowsOut(before, writes)
    ensures Collect(before + [Throw] + after, writes) == Collected(Collect(before, writes).jobs, false)
  {
    JoinsThree(before, Throw, after, writes);
    assert Collect(before, writes).jobs + [] == Collect(before, writes).jobs;
  }

  /** Wherever an enqueue is reached, its job is kept in its place; one the outbox cannot take throws instead. */
  lemma EnqueueIsKeptInItsPlace(before: seq<Stmt>, job: Job, after: seq<Stmt>, writes: bool)
    requires !ThrowsOut(before, writes)
    ensures var b, a := Collect(before, writes), Collect(after, writes);
            Collect(before + [Enqueue(job)] + after, writes)
            == (if writes && (job.flow || job.unique) then Collected(b.jobs, false)
                else Collected(b.jobs + [job] + a.jobs, a.resolves))
  {
    JoinsThree(before, Enqueue(job), after, writes);
    assert Collect(before, writes).jobs + [] == Collect(before, writes).jobs;
  }

  /** A nested block is its statements in the outer one: what throws out of it throws out of that too. */
  lemma NestedBlockJoins(before: seq<Stmt>, body: seq<Stmt>, after: seq<Stmt>, writes: bool)
    requires !ThrowsOut(before, writes)
    ensures Collect(before + [Nested(body)] + after, writes) == Collect(before + body + after, writes)
  {
    JoinsThree(before, Nested(body), after, writes);
    ResolvesIff(before, writes);
    CollectJoins(before + body, after, writes);
    CollectJoins(before, body, writes);
  }

  /** A block nested in an outer one, its throw caught, takes nothing back: wherever it stands, thrown or
      not, what it had enqueued is kept between what came before and what comes after, and the outer block
      resolves if the rest does. */
  lemma CaughtBlockKeepsItsJobs(before: seq<Stmt>, body: seq<Stmt>, after: seq<Stmt>, writes: bool)
    requires Collect(before, writes).resolves
    ensures var b, n, a := Collect(before, writes), Collect(body, writes), Collect(after, writes);
            Collect(before + [Caught([Nested(body)])] + after, writes)
            == Collected(b.jobs + n.jobs + a.jobs, a.resolves)
  {
    var caught, inner := [Caught([Nested(body)])], Collect(body, writes);
    CollectJoins(before + caught, after, writes);
    CollectJoins(before, caught, writes);
    assert caught[1..] == [] && [Nested(body)][1..] == [];
    assert inner.jobs + [] == inner.jobs;
    assert Collect([Nested(body)], writes).jobs == inner.jobs;
    assert Collect(caught, writes) == Collected(inner.jobs, true);
  }

  datatype Taken = Held | Delivered | RefusedEnded | RefusedByOutbox | DriverFailed

  class Scope {
    const writes: bool
    var held: seq<Job>
    var written: seq<Job>
    var closed: bool

    constructor (writes: bool)
      ensures held == [] && written == [] && !closed && this.writes == writes
    {
      this.writes, held, written, closed := writes, [], [], false;
    }

    /** What the scope keeps: envelopes for the outbox, or calls to make later. */
    function Kept(): seq<Job>
      reads this
    {
      if writes then written else held
    }
  }

  /** The queue and the outbox table as this process reaches them. */
  class Outside {
    var delivered: seq<Job>
    var saved: seq<seq<Job>>

    constructor ()
      ensures delivered == [] && saved == []
    {
      delivered, saved := [], [];
    }
  }

  method HoldOrDeliver(scope: Scope?, out: Outside, job: Job, answer: DriverAnswer) returns (taken: Taken)
    modifies scope, out
    ensures out.saved == old(out.saved)
    ensures scope == null ==>
              && taken == (if answer.Stores? then Taken.Delivered else DriverFailed)
              && out.delivered == old(out.delivered) + (if answer.FailsBefore? then [] else [job])
    ensures scope != null ==>
              && out.delivered == old(out.delivered) && scope.closed == old(scope.closed)
              && taken == (if scope.closed then RefusedEnded
                           else if scope.writes && !Writable(job) then RefusedByOutbox else Held)
              && scope.held == old(scope.held) + (if taken == Held && !scope.writes then [job] else [])
              && scope.written == old(scope.written) + (if taken == Held && scope.writes then [job] else [])
  {
    if scope == null {
      if answer != FailsBefore {
        out.delivered := out.delivered + [job];
      }
      return if answer == Stores then Taken.Delivered else DriverFailed;
    }
    if scope.closed {
      return RefusedEnded;
    }
    if scope.writes {
      if !Writable(job) {
        return RefusedByOutbox;
      }
      scope.written := scope.written + [job];
      return Held;
    }
    scope.held := scope.held + [job];
    taken := Held;
  }

  /** How many jobs reached the queue of a flush that failed at a place: those before it, and that one too
      when the driver failed after it had stored it. */
  function Reached(at: nat, answer: DriverAnswer): nat {
    if answer.FailsAfter? then at + 1 else at
  }

  /** Delivers one by one; `answers` is what the driver says at each place. A failure at a place
      leaves the jobs before it delivered, and the ones after it untried. */
  method Flush(out: Outside, held: seq<Job>, answers: nat -> DriverAnswer) returns (failedAt: Option<nat>)
    modifies out`delivered
    ensures failedAt.None? ==>
              out.delivered == old(out.delivered) + held && forall i | 0 <= i < |held| :: answers(i) == Stores
    ensures failedAt.Some? ==>
              && failedAt.value < |held| && answers(failedAt.value) != Stores
              && (forall i | 0 <= i < failedAt.value :: answers(i) == Stores)
              && out.delivered == old(out.delivered) + held[..Reached(failedAt.value, answers(failedAt.value))]
  {
    failedAt := None;
    for index := 0 to |held|
      invariant out.delivered == old(out.delivered) + held[..index]
      invariant forall i | 0 <= i < index :: answers(i) == Stores
    {
      assert held[..index + 1] == held[..index] + [held[index]];
      if answers(index) != FailsBefore {
        out.delivered := out.delivered + [held[index]];
      }
      if answers(index) != Stores {
        return Some(index);
      }
    }
    assert held[..|held|] == held;
  }

  /** The code of a block, run inside its open scope. */
  method RunBody(scope: Scope, out: Outside, stmts: seq<Stmt>) returns (resolved: bool)
    requires !scope.closed
    modifies scope, out
    ensures out.delivered == old(out.delivered) && out.saved == old(out.saved) && !scope.closed
    ensures resolved == Collect(stmts, scope.writes).resolves
    ensures scope.Kept() == old(scope.Kept()) + Collect(stmts, scope.writes).jobs
    decreases stmts
  {
    if stmts == [] {
      return true;
    }
    resolved := RunOne(scope, out, stmts[0]);
    if resolved {
      resolved := RunBody(scope, out, stmts[1..]);
    }
  }

  method RunOne(scope: Scope, out: Outside, stmt: Stmt) returns (resolved: bool)
    requires !scope.closed
    modifies scope, out
    ensures out.delivered == old(out.delivered) && out.saved == old(out.saved) && !scope.closed
    ensures resolved == CollectOne(stmt, scope.writes).resolves
    ensures scope.Kept() == old(scope.Kept()) + CollectOne(stmt, scope.writes).jobs
    decreases stmt
  {
    match stmt
    case Enqueue(job) =>
      var taken := HoldOrDeliver(scope, out, job, Stores);
      resolved := taken == Held;
    case Nested(body) =>
      resolved := RunBody(scope, out, body);
    case Caught(body) =>
      var ignored := RunBody(scope, out, body);
      resolved := true;
    case Throw =>
      resolved := false;
  }

  datatype BlockEnd = Resolved | Threw | WriteFailed | FlushFailed(at: nat)

  /** An outermost block: one that throws delivers and writes nothing; one that resolves delivers
      exactly what it collected, in order, or writes it in one call, or delivers the jobs before the
      one its driver failed on, that one included if it was stored all the same. A block that collected
      nothing never calls the write. */
  method RunAtomicBlock(out: Outside, body: seq<Stmt>, writes: bool, writeFails: bool, answers: nat -> DriverAnswer)
    returns (end: BlockEnd)
    modifies out
    ensures end.Threw? <==> ThrowsOut(body, writes)
    ensures var c := Collect(body, writes);
            && (end.Threw? <==> !c.resolves)
            && (end.Threw? ==> out.delivered == old(out.delivered) && out.saved == old(out.saved))
            && (writes && c.resolves ==>
                  && end == (if writeFails && c.jobs != [] then WriteFailed else Resolved)
                  && out.delivered == old(out.delivered)
                  && out.saved == old(out.saved) + (if c.jobs == [] || writeFails then [] else [c.jobs]))
            && (!writes && c.resolves ==>
                  && out.saved == old(out.saved)
                  && (end == Resolved || end.FlushFailed?)
                  && (end == Resolved ==> out.delivered == old(out.delivered) + c.jobs)
                  && (end.FlushFailed? ==>
                        && end.at < |c.jobs| && answers(end.at) != Stores
                        && out.delivered == old(out.delivered) + c.jobs[..Reached(end.at, answers(end.at))]))
  {
    ResolvesIff(body, writes);
    var scope := new Scope(writes);
    var resolved := RunBody(scope, out, body);
    scope.closed := true;
    assert scope.Kept() == Collect(body, writes).jobs;
    if !resolved {
      return Threw;
    }
    if scope.writes {
      if |scope.written| > 0 {
        if writeFails {
          return WriteFailed;
        }
        out.saved := out.saved + [scope.written];
      }
      return Resolved;
    }
    var failedAt := Flush(out, scope.held, answers);
    end := match failedAt case None => Resolved case Some(at) => FlushFailed(at);
  }

  // ---------------------------------------------------------------- blocks running at once

  type Id = nat

  datatype Phase = Open | Settling(next: nat) | Settled | Dropped | Broken(at: nat, answer: DriverAnswer)

  datatype Block = Block(writes: bool, kept: seq<Job>, phase: Phase)

  datatype Entry = Entry(block: Option<Id>, job: Job)

  /** `log` is what reached the queue, `rows` what was written to the outbox, by block. */
  datatype State = State(blocks: map<Id, Block>, log: seq<Entry>, rows: map<Id, seq<Job>>)

  const INIT := State(map[], [], map[])

  datatype Action =
    | Opens(id: Id, writes: bool)
    | Enqueues(id: Id, job: Job)
    | EnqueuesOutside(job: Job)
    | Resolves(id: Id, writeFails: bool)
    | Throws(id: Id)
    | FlushesNext(id: Id, answer: DriverAnswer)

  predicate IsOpen(s: State, id: Id) { id in s.blocks && s.blocks[id].phase.Open? }

  predicate Flushable(s: State, id: Id) {
    id in s.blocks && s.blocks[id].phase.Settling? && s.blocks[id].phase.next < |s.blocks[id].kept|
  }

  function NextEntry(s: State, id: Id): Entry
    requires Flushable(s, id)
  {
    Entry(Some(id), s.blocks[id].kept[s.blocks[id].phase.next])
  }

  function FlushedOne(b: Block, answer: DriverAnswer): Block
    requires b.phase.Settling?
  {
    var n := b.phase.next;
    b.(phase := if !answer.Stores? then Broken(n, answer) else if n + 1 == |b.kept| then Settled else Settling(n + 1))
  }

  function Do(s: State, a: Action): State {
    match a
    case Opens(id, writes) => if id in s.blocks then s else s.(blocks := s.blocks[id := Block(writes, [], Open)])
    case Enqueues(id, job) =>
      if IsOpen(s, id) && (s.blocks[id].writes ==> Writable(job))
      then s.(blocks := s.blocks[id := s.blocks[id].(kept := s.blocks[id].kept + [job])]) else s
    case EnqueuesOutside(job) => s.(log := s.log + [Entry(None, job)])
    case Resolves(id, writeFails) =>
      if !IsOpen(s, id) then s
      else if s.blocks[id].writes then
        if s.blocks[id].kept == [] then s.(blocks := s.blocks[id := s.blocks[id].(phase := Settled)])
        else if writeFails then s.(blocks := s.blocks[id := s.blocks[id].(phase := Dropped)])
        else s.(blocks := s.blocks[id := s.blocks[id].(phase := Settled)], rows := s.rows[id := s.blocks[id].kept])
      else
        var phase := if s.blocks[id].kept == [] then Settled else Settling(0);
        s.(blocks := s.blocks[id := s.blocks[id].(phase := phase)])
    case Throws(id) =>
      if IsOpen(s, id) then s.(blocks := s.blocks[id := s.blocks[id].(phase := Dropped)]) else s
    case FlushesNext(id, answer) =>
      if Flushable(s, id) then
        s.(blocks := s.blocks[id := FlushedOne(s.blocks[id], answer)],
           log := if answer.FailsBefore? then s.log else s.log + [NextEntry(s, id)])
      else s
  }

  function Exec(s: State, actions: seq<Action>): State
    decreases actions
  {
    if actions == [] then s else Exec(Do(s, actions[0]), actions[1..])
  }

  function DeliveredBy(log: seq<Entry>, id: Id): seq<Job> {
    if log == [] then []
    else
      var last := log[|log| - 1];
      DeliveredBy(log[..|log| - 1], id) + (if last.block == Some(id) then [last.job] else [])
  }

  lemma LogGrows(log: seq<Entry>, e: Entry, id: Id)
    ensures DeliveredBy(log + [e], id) == DeliveredBy(log, id) + (if e.block == Some(id) then [e.job] else [])
  {
    assert (log + [e])[..|log|] == log;
  }

  /** What one block is: its scope, what it delivered, what it wrote. */
  datatype View = View(block: Option<Block>, delivered: seq<Job>, row: Option<seq<Job>>)

  function ViewOf(s: State, id: Id): View {
    View(if id in s.blocks then Some(s.blocks[id]) else None, DeliveredBy(s.log, id),
         if id in s.rows then Some(s.rows[id]) else None)
  }

  predicate IsOf(a: Action, id: Id) { !a.EnqueuesOutside? && a.id == id }

  function Only(actions: seq<Action>, id: Id): seq<Action> {
    if actions == [] then []
    else (if IsOf(actions[0], id) then [actions[0]] else []) + Only(actions[1..], id)
  }

  lemma SameBlock(s: State, t: State, id: Id)
    requires ViewOf(s, id) == ViewOf(t, id)
    ensures id in s.blocks <==> id in t.blocks
    ensures id in s.blocks ==> s.blocks[id] == t.blocks[id]
    ensures Flushable(s, id) <==> Flushable(t, id)
    ensures Flushable(s, id) ==> NextEntry(s, id) == NextEntry(t, id)
  {
  }

  /** What one flush step makes of the block's own view. */
  lemma FlushSeen(s: State, id: Id, answer: DriverAnswer)
    requires Flushable(s, id)
    ensures var v, v' := ViewOf(s, id), ViewOf(Do(s, FlushesNext(id, answer)), id);
            && v'.block == Some(FlushedOne(s.blocks[id], answer)) && v'.row == v.row
            && v'.delivered == v.delivered + (if answer.FailsBefore? then [] else [NextEntry(s, id).job])
  {
    if !answer.FailsBefore? {
      LogGrows(s.log, NextEntry(s, id), id);
    }
  }

  lemma FlushIsLocal(s: State, t: State, id: Id, answer: DriverAnswer)
    requires ViewOf(s, id) == ViewOf(t, id)
    ensures ViewOf(Do(s, FlushesNext(id, answer)), id) == ViewOf(Do(t, FlushesNext(id, answer)), id)
  {
    SameBlock(s, t, id);
    if Flushable(s, id) {
      FlushSeen(s, id, answer);
      FlushSeen(t, id, answer);
    }
  }

  lemma OtherFlushDoesNotShow(s: State, other: Id, answer: DriverAnswer, id: Id)
    requires other != id
    ensures ViewOf(Do(s, FlushesNext(other, answer)), id) == ViewOf(s, id)
  {
    if Flushable(s, other) && !answer.FailsBefore? {
      LogGrows(s.log, NextEntry(s, other), id);
      assert DeliveredBy(s.log, id) + [] == DeliveredBy(s.log, id);
    }
  }

  lemma OthersDoNotShow(s: State, a: Action, id: Id)
    requires !IsOf(a, id)
    ensures ViewOf(Do(s, a), id) == ViewOf(s, id)
  {
    match a
    case FlushesNext(other, answer) => OtherFlushDoesNotShow(s, other, answer, id);
    case EnqueuesOutside(job) => LogGrows(s.log, Entry(None, job), id);
    case _ =>
  }

  lemma StepIsLocal(s: State, t: State, a: Action, id: Id)
    requires ViewOf(s, id) == ViewOf(t, id) && IsOf(a, id)
    ensures ViewOf(Do(s, a), id) == ViewOf(Do(t, a), id)
  {
    if a.FlushesNext? {
      FlushIsLocal(s, t, id, a.answer);
    } else {
      assert id in s.blocks <==> id in t.blocks;
      assert Do(s, a).log == s.log && Do(t, a).log == t.log;
    }
  }

  lemma {:induction false} ViewsStayEqual(s: State, t: State, actions: seq<Action>, id: Id)
    requires ViewOf(s, id) == ViewOf(t, id)
    ensures ViewOf(Exec(s, actions), id) == ViewOf(Exec(t, Only(actions, id)), id)
    decreases actions
  {
    if actions != [] {
      var a, rest := actions[0], Only(actions[1..], id);
      if IsOf(a, id) {
        StepIsLocal(s, t, a, id);
        assert Only(actions, id) == [a] + rest && ([a] + rest)[1..] == rest;
        ViewsStayEqual(Do(s, a), Do(t, a), actions[1..], id);
      } else {
        OthersDoNotShow(s, a, id);
        assert Only(actions, id) == rest;
        ViewsStayEqual(Do(s, a), t, actions[1..], id);
      }
    }
  }

  /** Isolation: whatever ran in between, a block holds, delivers and writes exactly what it does when
      it runs alone. */
  lemma BlocksDoNotInterfere(actions: seq<Action>, id: Id)
    ensures ViewOf(Exec(INIT, actions), id) == ViewOf(Exec(INIT, Only(actions, id)), id)
  {
    ViewsStayEqual(INIT, INIT, actions, id);
  }

  predicate Sensible(v: View) {
    match v.block
    case None => v.delivered == [] && v.row.None?
    case Some(b) =>
      && (b.phase.Open? || b.phase.Dropped? ==> v.delivered == [] && v.row.None?)
      && (b.writes ==> v.delivered == [] && !b.phase.Settling? && !b.phase.Broken?)
      && (b.writes && b.phase.Settled? ==> v.row == if b.kept == [] then None else Some(b.kept))
      && (!b.writes ==> v.row.None?)
      && (!b.writes && b.phase.Settled? ==> v.delivered == b.kept)
      && (b.phase.Settling? ==> b.phase.next < |b.kept| && v.delivered == b.kept[..b.phase.next])
      && (b.phase.Broken? ==>
            b.phase.at < |b.kept| && !b.phase.answer.Stores?
            && v.delivered == b.kept[..Reached(b.phase.at, b.phase.answer)])
      && (b.writes ==> forall j | j in b.kept :: Writable(j))
  }

  lemma StepStaysSensible(s: State, a: Action, id: Id)
    requires Sensible(ViewOf(s, id))
    ensures Sensible(ViewOf(Do(s, a), id))
  {
    if !IsOf(a, id) {
      OthersDoNotShow(s, a, id);
    } else if a.FlushesNext? {
      FlushStaysSensible(s, id, a.answer);
    }
  }

  lemma PrefixGrows(kept: seq<Job>, n: nat)
    requires n < |kept|
    ensures kept[..n] + [kept[n]] == kept[..n + 1]
    ensures n + 1 == |kept| ==> kept[..n + 1] == kept
  {
  }

  /** A block in the middle of its flush, and what it has delivered by then. */
  lemma FlushedSensible(b: Block, v: View, answer: DriverAnswer)
    requires v.block == Some(b) && Sensible(v) && b.phase.Settling?
    ensures var delivered := v.delivered + (if answer.FailsBefore? then [] else [b.kept[b.phase.next]]);
            Sensible(View(Some(FlushedOne(b, answer)), delivered, v.row))
  {
    PrefixGrows(b.kept, b.phase.next);
    assert v.delivered + [] == v.delivered;
  }

  lemma FlushStaysSensible(s: State, id: Id, answer: DriverAnswer)
    requires Sensible(ViewOf(s, id))
    ensures Sensible(ViewOf(Do(s, FlushesNext(id, answer)), id))
  {
    if Flushable(s, id) {
      FlushSeen(s, id, answer);
      FlushedSensible(s.blocks[id], ViewOf(s, id), answer);
    }
  }

  lemma {:induction false} RunStaysSensible(s: State, actions: seq<Action>, id: Id)
    requires Sensible(ViewOf(s, id))
    ensures Sensible(ViewOf(Exec(s, actions), id))
    decreases actions
  {
    if actions != [] {
      StepStaysSensible(s, actions[0], id);
      RunStaysSensible(Do(s, actions[0]), actions[1..], id);
    }
  }

  function Flushes(id: Id, n: nat): seq<Action> {
    seq(n, i => FlushesNext(id, Stores))
  }

  /** And a flush gets there: with a driver that answers, as many steps as jobs are left settle the block, with
      everything it kept delivered in order. */
  lemma {:induction false} FlushSettles(s: State, id: Id)
    requires id in s.blocks && s.blocks[id].phase.Settling? && Sensible(ViewOf(s, id))
    ensures var b := s.blocks[id];
            var v := ViewOf(Exec(s, Flushes(id, |b.kept| - b.phase.next)), id);
            v.block == Some(b.(phase := Settled)) && v.delivered == b.kept
    decreases |s.blocks[id].kept| - s.blocks[id].phase.next
  {
    var b := s.blocks[id];
    var s' := Do(s, FlushesNext(id, Stores));
    var n := |b.kept| - b.phase.next;
    FlushSeen(s, id, Stores);
    FlushStaysSensible(s, id, Stores);
    assert Flushes(id, n)[1..] == Flushes(id, n - 1);
    assert Exec(s, Flushes(id, n)) == Exec(s', Flushes(id, n - 1));
    if n > 1 {
      FlushSettles(s', id);
    } else {
      assert Exec(s', []) == s' && Flushes(id, 0) == [];
    }
  }

  /** Outside any block an enqueue goes straight through, beside the blocks. */
  lemma OutsideGoesThrough(s: State, job: Job)
    ensures Do(s, EnqueuesOutside(job)) == s.(log := s.log + [Entry(None, job)])
  {
  }

  /** How a block leaves its code: it throws to nothing, it writes, or it begins to flush. */
  lemma HowABlockEnds(s: State, id: Id, writeFails: bool)
    requires IsOpen(s, id)
    ensures var b := s.blocks[id];
            && Do(s, Throws(id)) == s.(blocks := s.blocks[id := b.(phase := Dropped)])
            && (b.kept == [] ==> Do(s, Resolves(id, writeFails)) == s.(blocks := s.blocks[id := b.(phase := Settled)]))
            && (b.kept != [] && !b.writes ==>
                  Do(s, Resolves(id, writeFails)) == s.(blocks := s.blocks[id := b.(phase := Settling(0))]))
            && (b.kept != [] && b.writes && writeFails ==>
                  Do(s, Resolves(id, writeFails)) == s.(blocks := s.blocks[id := b.(phase := Dropped)]))
            && (b.kept != [] && b.writes && !writeFails ==>
                  Do(s, Resolves(id, writeFails))
                  == s.(blocks := s.blocks[id := b.(phase := Settled)], rows := s.rows[id := b.kept]))
  {
  }

  /** In every interleaving of any number of blocks: a block that threw, whose write failed, or that is
      still open, has delivered and written nothing; one that settled has delivered exactly what it kept, in order,
      or written it in one call; one whose flush broke at a place delivered exactly the jobs before
      it, and that one if the driver failed after storing it; and no writing block ever keeps a flow or a unique job. */
  lemma EveryBlockAllOrNothing(actions: seq<Action>, id: Id)
    ensures Sensible(ViewOf(Exec(INIT, actions), id))
  {
    RunStaysSensible(INIT, actions, id);
  }

  /** A block that ended takes nothing more, whatever is enqueued from what it left running. */
  lemma {:induction false} EndedBlockKeepsNothingMore(s: State, actions: seq<Action>, id: Id)
    requires id in s.blocks && !s.blocks[id].phase.Open?
    ensures var s' := Exec(s, actions);
            id in s'.blocks && !s'.blocks[id].phase.Open?
            && s'.blocks[id].kept == s.blocks[id].kept && s'.blocks[id].writes == s.blocks[id].writes
    decreases actions
  {
    if actions != [] {
      EndedBlockKeepsNothingMore(Do(s, actions[0]), actions[1..], id);
    }
  }

  // ---------------------------------------------------------------- a program among other blocks

  function EnqueueAll(id: Id, jobs: seq<Job>): seq<Action> {
    seq(|jobs|, i requires 0 <= i < |jobs| => Enqueues(id, jobs[i]))
  }

  lemma {:induction false} ExecConcat(s: State, xs: seq<Action>, ys: seq<Action>)
    ensures Exec(s, xs + ys) == Exec(Exec(s, xs), ys)
    decreases xs
  {
    if xs == [] {
      assert xs + ys == ys;
    } else {
      assert (xs + ys)[1..] == xs[1..] + ys;
      ExecConcat(Do(s, xs[0]), xs[1..], ys);
    }
  }

  lemma {:induction false} AllAreKept(s: State, id: Id, jobs: seq<Job>)
    requires IsOpen(s, id) && (s.blocks[id].writes ==> forall j | j in jobs :: Writable(j))
    ensures var s' := Exec(s, EnqueueAll(id, jobs));
            IsOpen(s', id) && s'.blocks[id] == s.blocks[id].(kept := s.blocks[id].kept + jobs)
    decreases jobs
  {
    if jobs != [] {
      assert EnqueueAll(id, jobs)[1..] == EnqueueAll(id, jobs[1..]);
      AllAreKept(Do(s, Enqueues(id, jobs[0])), id, jobs[1..]);
      assert s.blocks[id].kept + [jobs[0]] + jobs[1..] == s.blocks[id].kept + jobs;
    } else {
      assert s.blocks[id].kept + jobs == s.blocks[id].kept;
    }
  }

  lemma {:induction false} CollectedIsWritable(stmts: seq<Stmt>)
    ensures forall j | j in Collect(stmts, true).jobs :: Writable(j)
    decreases stmts
  {
    if stmts != [] {
      match stmts[0] {
        case Nested(body) => CollectedIsWritable(body);
        case Caught(body) => CollectedIsWritable(body);
        case _ =>
      }
      CollectedIsWritable(stmts[1..]);
    }
  }

  function OwnActions(id: Id, c: Collected, writes: bool, writeFails: bool): seq<Action> {
    [Opens(id, writes)] + EnqueueAll(id, c.jobs) + [if c.resolves then Resolves(id, writeFails) else Throws(id)]
  }

  lemma BlockEnds(id: Id, c: Collected, writes: bool, writeFails: bool)
    requires writes ==> forall j | j in c.jobs :: Writable(j)
    ensures var s := Exec(INIT, OwnActions(id, c, writes, writeFails));
            && id in s.blocks && s.blocks[id].kept == c.jobs && s.blocks[id].writes == writes
            && !s.blocks[id].phase.Open?
            && (!c.resolves || (writes && writeFails && c.jobs != []) ==> s.blocks[id].phase.Dropped?)
  {
    var begin, all := [Opens(id, writes)], EnqueueAll(id, c.jobs);
    var end := if c.resolves then Resolves(id, writeFails) else Throws(id);
    var begun := Do(INIT, Opens(id, writes));
    assert Exec(INIT, begin) == begun by { assert begin[1..] == []; }
    AllAreKept(begun, id, c.jobs);
    assert [] + c.jobs == c.jobs;
    var full := Exec(begun, all);
    assert Exec(full, [end]) == Do(full, end) by { assert [end][1..] == []; }
    ExecConcat(INIT, begin, all);
    ExecConcat(INIT, begin + all, [end]);
  }

  /** The program of one block among any others, and whatever follows it: its block keeps exactly
      what the program collected; it delivers a prefix of that, all of it once it settled, and none
      of it when the program threw or its write failed. */
  lemma ProgramAmongOthers(actions: seq<Action>, id: Id, body: seq<Stmt>, writes: bool, writeFails: bool,
                           after: seq<Action>)
    requires Only(actions, id) == OwnActions(id, Collect(body, writes), writes, writeFails) + after
    ensures var c := Collect(body, writes);
            var v := ViewOf(Exec(INIT, actions), id);
            && v.block.Some? && v.block.value.kept == c.jobs && v.block.value.writes == writes
            && v.delivered <= c.jobs
            && (!c.resolves || (writes && writeFails) ==> v.delivered == [] && v.row.None?)
            && (v.block.value.phase.Settled? ==>
                  v.delivered == (if writes then [] else c.jobs)
                  && v.row == (if writes && c.jobs != [] then Some(c.jobs) else None))
  {
    var c := Collect(body, writes);
    if writes { CollectedIsWritable(body); }
    BlockEnds(id, c, writes, writeFails);
    var ended := Exec(INIT, OwnActions(id, c, writes, writeFails));
    ExecConcat(INIT, OwnActions(id, c, writes, writeFails), after);
    EndedBlockKeepsNothingMore(ended, after, id);
    if !c.resolves || (writes && writeFails && c.jobs != []) { DroppedStaysDropped(ended, after, id); }
    BlocksDoNotInterfere(actions, id);
    EveryBlockAllOrNothing(Only(actions, id), id);
  }

  lemma {:induction false} DroppedStaysDropped(s: State, actions: seq<Action>, id: Id)
    requires id in s.blocks && s.blocks[id].phase.Dropped?
    ensures var s' := Exec(s, actions); id in s'.blocks && s'.blocks[id].phase.Dropped?
    decreases actions
  {
    if actions != [] {
      DroppedStaysDropped(Do(s, actions[0]), actions[1..], id);
    }
  }
}
