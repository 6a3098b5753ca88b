/** `dead.replay`: forget the key, enqueue the job, drop the record, and what is left standing when
    any of the three fails. */
module Replay {
  import opened Errors
  import opened JobId
  import opened Definition
  import opened KeyStore
  import opened Outbox
  import D = Dead

  /** Where the stores stop answering: each command may fail before it landed, or after. */
  datatype Fault =
    | NoFault | AtRead | AtForget | AfterForget | AtEnqueue | AfterEnqueue | AtRemove | AfterRemove

  datatype Why =
    | InsideABlock | NotADeadId | NotKept | PartOfAFlow | UnknownDefinition | WaitsOnChildren
    | CannotMigrate | PayloadRefused | KeyIsHeld

  datatype End = Replayed(queue: string) | Refusal(why: Why) | Broke(fault: Fault)

  datatype Enqueued = Enqueued(queue: string, envelope: Envelope)

  /** The key a validated payload names, `None` for a definition that declares none. */
  type KeyOfPayload = (Definition, Value) -> Option<Key>

  class Client {
    var dead: map<NamedJob, D.Entry>
    var keys: Store
    var enqueued: seq<Enqueued>

    constructor ()
      ensures dead == map[] && keys == map[] && enqueued == []
    {
      dead, keys, enqueued := map[], map[], [];
    }

    /** The three commands of a replay, for a record that may be: forget, enqueue, remove. */
    method PutBack(record: NamedJob, job: Enqueued, key: Option<Key>, fault: Fault) returns (end: End)
      requires record in dead
      modifies this
      ensures end.Refusal? ==> dead == old(dead) && keys == old(keys) && enqueued == old(enqueued)
      ensures enqueued == old(enqueued) || enqueued == old(enqueued) + [job]
      ensures dead == old(dead) || (dead == old(dead) - {record} && enqueued == old(enqueued) + [job])
      ensures keys == old(keys) || (key.Some? && key.value !in keys && keys == After(old(keys), Forget(key.value)))
      ensures enqueued != old(enqueued) && key.Some? ==>
                key.value !in keys && keys == After(old(keys), Forget(key.value))
      ensures end.Replayed? ==>
                end.queue == job.queue && dead == old(dead) - {record} && enqueued == old(enqueued) + [job]
      ensures fault == NoFault ==> (end.Replayed? <==> !HeldBySome(old(keys), key))
      ensures end.Refusal? ==> end == Refusal(KeyIsHeld)
      ensures fault == NoFault ==> !end.Broke?
    {
      if key.Some? {
        if fault == AtForget {
          return Broke(AtForget);
        }
        if key.value in keys && keys[key.value].Held? {
          return Refusal(KeyIsHeld);
        }
        keys := After(keys, Forget(key.value));
        if fault == AfterForget {
          return Broke(AfterForget);
        }
      }
      if fault == AtEnqueue {
        return Broke(AtEnqueue);
      }
      enqueued := enqueued + [job];
      if fault == AfterEnqueue || fault == AtRemove {
        return Broke(fault);
      }
      dead := dead - {record};
      if fault == AfterRemove {
        return Broke(AfterRemove);
      }
      end := Replayed(job.queue);
    }

    method Replay(id: string, defs: seq<Definition>, keyOf: KeyOfPayload, inBlock: bool, fault: Fault)
      returns (end: End)
      modifies this
      // A refusal changes no queue, no key and no record.
      ensures end.Refusal? ==> dead == old(dead) && keys == old(keys) && enqueued == old(enqueued)
      // Wherever it ends, the record is kept or a job with the record's own envelope is enqueued.
      ensures forall r | r in old(dead) ::
                || r in dead
                || enqueued == old(enqueued) + [Enqueued(QueueFor(defs, old(dead)[r]), old(dead)[r].envelope)]
      ensures forall r | r in dead :: r in old(dead) && dead[r] == old(dead)[r]
      ensures enqueued == old(enqueued) || |enqueued| == |old(enqueued)| + 1
      // The keys are as they were, or the key of the record it read was forgotten and nothing else.
      ensures keys != old(keys) ==>
                && ReadDeadJobId(id).Some? && ReadDeadJobId(id).value in old(dead)
                && var key := KeyFor(defs, keyOf, old(dead)[ReadDeadJobId(id).value]);
                   key.Some? && key.value !in keys && keys == After(old(keys), Forget(key.value))
      // And nothing is enqueued under a key that was not freed first.
      ensures enqueued != old(enqueued) ==>
                && ReadDeadJobId(id).Some? && ReadDeadJobId(id).value in old(dead)
                && var key := KeyFor(defs, keyOf, old(dead)[ReadDeadJobId(id).value]);
                   key.Some? ==> key.value !in keys
      // Success is exactly: the record is gone, its job enqueued, and the key it names is free.
      ensures end.Replayed? ==>
                && ReadDeadJobId(id).Some? && ReadDeadJobId(id).value in old(dead)
                && var entry := old(dead)[ReadDeadJobId(id).value];
                   && Replayable(defs, entry)
                   && dead == old(dead) - {ReadDeadJobId(id).value}
                   && end.queue == QueueFor(defs, entry)
                   && enqueued == old(enqueued) + [Enqueued(end.queue, entry.envelope)]
                   && var key := KeyFor(defs, keyOf, entry);
                      && (key.Some? ==> key.value !in keys && keys == After(old(keys), Forget(key.value)))
                      && (key.None? ==> keys == old(keys))
      // With nothing failing, it is refused exactly for what cannot be replayed or is held.
      ensures !inBlock && fault == NoFault && ReadDeadJobId(id).Some? && ReadDeadJobId(id).value in old(dead) ==>
                var entry := old(dead)[ReadDeadJobId(id).value];
                && (end.Replayed? <==> Replayable(defs, entry) && !HeldBySome(old(keys), KeyFor(defs, keyOf, entry)))
                && (!Replayable(defs, entry) ==>
                      Refuses(defs, entry).Some? && end == Refusal(Refuses(defs, entry).value))
                && (Replayable(defs, entry) && !end.Replayed? ==> end == Refusal(KeyIsHeld))
      // Before a record is read, a block, an id that names none and one that is not kept are told apart.
      ensures inBlock ==> end == Refusal(InsideABlock)
      ensures !inBlock && ReadDeadJobId(id).None? ==> end == Refusal(NotADeadId)
      ensures !inBlock && ReadDeadJobId(id).Some? && fault == NoFault && ReadDeadJobId(id).value !in old(dead) ==>
                end == Refusal(NotKept)
    {
      if inBlock {
        return Refusal(InsideABlock);
      }
      var named := ReadDeadJobId(id);
      if named.None? {
        return Refusal(NotADeadId);
      }
      if fault == AtRead {
        return Broke(AtRead);
      }
      if named.value !in dead {
        return Refusal(NotKept);
      }
      var entry := dead[named.value];
      var refused := Refuses(defs, entry);
      if refused.Some? {
        return Refusal(refused.value);
      }
      end := PutBack(named.value, Enqueued(QueueFor(defs, entry), entry.envelope), KeyFor(defs, keyOf, entry), fault);
    }
  }

  function QueueFor(defs: seq<Definition>, e: D.Entry): string {
    match FindDefinition(defs, e.envelope.name)
    case None => ""
    case Some(d) => d.queue
  }

  /** The payload a replay would run on. */
  function PayloadOf(defs: seq<Definition>, e: D.Entry): Option<Value> {
    match FindDefinition(defs, e.envelope.name)
    case None => None
    case Some(d) =>
      match MigratedData(d, e.envelope)
      case Refused(_) => None
      case Ok(data) => d.payload(data)
  }

  /** The first reason a record that is kept cannot be replayed for, in the order they are looked at. */
  function Refuses(defs: seq<Definition>, e: D.Entry): (why: Option<Why>)
    ensures why.None? <==> Replayable(defs, e)
  {
    if e.envelope.origin == Flow then Some(PartOfAFlow)
    else
      match FindDefinition(defs, e.envelope.name)
      case None => Some(UnknownDefinition)
      case Some(d) =>
        if d.slots != [] then Some(WaitsOnChildren)
        else
          match MigratedData(d, e.envelope)
          case Refused(_) => Some(CannotMigrate)
          case Ok(data) => if d.payload(data).None? then Some(PayloadRefused) else None
  }

  /** A record that runs alone, whose payload a definition known here still accepts. */
  predicate Replayable(defs: seq<Definition>, e: D.Entry) {
    && e.envelope.origin != Flow && FindDefinition(defs, e.envelope.name).Some?
    && FindDefinition(defs, e.envelope.name).value.slots == [] && PayloadOf(defs, e).Some?
  }

  function KeyFor(defs: seq<Definition>, keyOf: KeyOfPayload, e: D.Entry): Option<Key> {
    match (FindDefinition(defs, e.envelope.name), PayloadOf(defs, e))
    case (Some(d), Some(v)) => keyOf(d, v)
    case _ => None
  }

  predicate HeldBySome(s: Store, key: Option<Key>) {
    key.Some? && key.value in s && s[key.value].Held?
  }

  /** Told by the definitions alone: a record is replayed on the queue of the first definition of its name, under
      the key that definition names for the payload its schema makes of the migrated data. */
  lemma ReplayedWhere(defs: seq<Definition>, keyOf: KeyOfPayload, e: D.Entry, n: nat)
    requires IsFirst(defs, e.envelope.name, n)
    ensures QueueFor(defs, e) == defs[n].queue
    ensures Replayable(defs, e) <==> e.envelope.origin != Flow && Accepts(defs[n], e.envelope)
    ensures Replayable(defs, e) ==>
              KeyFor(defs, keyOf, e) == keyOf(defs[n], defs[n].payload(MigratedData(defs[n], e.envelope).value).value)
  {
    FoundFirst(defs, e.envelope.name, n);
  }

  /** Why a record is refused: part of a flow, then unknown, then waiting on children, then a payload that cannot
      be brought up to date, then one that is refused. */
  lemma RefusedRecordSaysWhy(defs: seq<Definition>, e: D.Entry, n: nat)
    ensures Refuses(defs, e) == Some(PartOfAFlow) <==> e.envelope.origin == Flow
    ensures e.envelope.origin != Flow ==>
              (Refuses(defs, e) == Some(UnknownDefinition) <==> forall m: nat :: !IsFirst(defs, e.envelope.name, m))
    ensures e.envelope.origin != Flow && IsFirst(defs, e.envelope.name, n) ==>
              && (Refuses(defs, e) == Some(WaitsOnChildren) <==> defs[n].slots != [])
              && (Refuses(defs, e) == Some(CannotMigrate) <==>
                  defs[n].slots == [] && MigratedData(defs[n], e.envelope).Refused?)
              && (Refuses(defs, e) == Some(PayloadRefused) <==>
                  && defs[n].slots == [] && MigratedData(defs[n], e.envelope).Ok?
                  && defs[n].payload(MigratedData(defs[n], e.envelope).value).None?)
  {
    if IsFirst(defs, e.envelope.name, n) { FoundFirst(defs, e.envelope.name, n); }
    if m: nat :| IsFirst(defs, e.envelope.name, m) {
      FoundFirst(defs, e.envelope.name, m);
    } else {
      FoundNone(defs, e.envelope.name);
    }
  }
}
