/** What a job is declared and stored as: values, definitions and envelopes. */
module Definition {
  import opened Errors
  import opened JobId

  /** A JavaScript value as far as the library looks into one. */
  datatype Value =
    | Undefined | Null | Bool(b: bool) | Num(n: real) | Str(s: string)
    | Arr(items: seq<Value>) | Obj(fields: map<string, Value>)

  datatype Result<+T, +E> = Ok(value: T) | Refused(why: E)

  /** `Reflect.get`: what a field of an object holds, `Undefined` when it holds none. */
  function Field(v: Value, name: string): Value {
    if v.Obj? && name in v.fields then v.fields[name] else Undefined
  }

  predicate IsWhole(n: real) {
    n.Floor as real == n
  }

  datatype Origin = Direct | Scheduled | Flow | Relay

  datatype Envelope = Envelope(v: real, name: string, data: Value, origin: Origin, slots: Option<map<string, int>>)

  /** A schema is any partial function: it gives back a value or refuses one. */
  type Schema = Value -> Option<Value>

  /** `unique` says whether the delivery policy resolves to a uniqueness key for a payload. */
  datatype Definition = Definition(
    name: string, queue: string, version: int, migrations: map<int, Schema>,
    payload: Schema, result: Option<Schema>, unique: Value -> bool, slots: seq<Slot>)

  datatype Slot = Slot(name: string, definition: Definition, many: bool)

  predicate DistinctNames(slots: seq<Slot>) {
    forall i, j | 0 <= i < j < |slots| :: slots[i].name != slots[j].name
  }

  function SlotNames(slots: seq<Slot>): set<string> {
    set i | 0 <= i < |slots| :: slots[i].name
  }

  /** What `defineJob` lets through: slots are the keys of an object, so their names are
      distinct, and a name holds neither a colon nor the child id marker. */
  predicate IsDefined(d: Definition) {
    && DistinctNames(d.slots)
    && (forall i | 0 <= i < |d.slots| :: IsSlotName(d.slots[i].name))
    && (forall i | 0 <= i < |d.slots| :: IsDefined(d.slots[i].definition))
    && COLON !in d.queue
  }

  function ValidateResult(d: Definition, v: Value): Option<Value> {
    match d.result
    case None => Some(v)
    case Some(schema) => schema(v)
  }

  /** A result is what its schema gives back; with no schema it is as it was left. */
  lemma ValidatedIff(d: Definition, v: Value, result: Value)
    ensures ValidateResult(d, v) == Some(result) <==>
            || (d.result.None? && result == v)
            || (d.result.Some? && d.result.value(v) == Some(result))
  {
  }

  function WriteEnvelope(d: Definition, data: Value, origin: Origin): Envelope {
    Envelope(d.version as real, d.name, data, origin, None)
  }
}
