/** What a dead record is written as and read back from, envelope included. */
module Dead {
  import opened Errors
  import opened JobId
  import opened Definition
  import opened FlowRead
  import R = Runtime

  // ---------------------------------------------------------------- JSON

  /** A value JSON has a text for, all the way down. */
  predicate IsJson(v: Value) {
    match v
    case Undefined => false
    case Arr(items) => forall i | 0 <= i < |items| :: IsJson(items[i])
    case Obj(fields) => forall k | k in fields :: IsJson(fields[k])
    case _ => true
  }

  /** `JSON.parse(JSON.stringify(v))`: a field that is undefined is dropped, an item becomes null. */
  function Project(v: Value): Value {
    match v
    case Arr(items) =>
      Arr(seq(|items|, i requires 0 <= i < |items| => if items[i].Undefined? then Null else Project(items[i])))
    case Obj(fields) => Obj(map k | k in fields && !fields[k].Undefined? :: Project(fields[k]))
    case _ => v
  }

  lemma {:induction false} JsonProjectsToItself(v: Value)
    requires IsJson(v)
    ensures Project(v) == v
    decreases v
  {
    match v
    case Arr(items) =>
      forall i | 0 <= i < |items| ensures Project(items[i]) == items[i] { JsonProjectsToItself(items[i]); }
      assert Project(v).items == items;
    case Obj(fields) =>
      forall k | k in fields ensures Project(fields[k]) == fields[k] { JsonProjectsToItself(fields[k]); }
      assert Project(v).fields == fields;
    case _ =>
  }

  lemma FieldsProject(v: Value, name: string)
    requires v.Obj?
    ensures Field(Project(v), name) == Project(Field(v, name))
    ensures Field(v, name).Str? || Field(v, name).Num? || Field(v, name).Undefined? ==>
              Field(Project(v), name) == Field(v, name)
  {
  }

  // ---------------------------------------------------------------- envelopes

  function OriginText(o: Origin): string {
    match o
    case Direct => "direct"
    case Scheduled => "schedule"
    case Flow => "flow"
    case Relay => "relay"
  }

  function ReadOrigin(v: Value): Option<Origin> {
    if v == Str("direct") then Some(Direct)
    else if v == Str("schedule") then Some(Scheduled)
    else if v == Str("flow") then Some(Origin.Flow)
    else if v == Str("relay") then Some(Relay)
    else None
  }

  predicate IsCount(v: Value) { v.Num? && IsWhole(v.n) }

  function SlotsValue(slots: Option<map<string, int>>): Value {
    match slots
    case None => Undefined
    case Some(counts) => Obj(map k | k in counts :: Num(counts[k] as real))
  }

  /** The counts a record holds; `Refused` for one that is no record of whole numbers. */
  function SlotsOf(stored: Value): Result<Option<map<string, int>>, ()> {
    if stored.Undefined? then Ok(None)
    else if !stored.Obj? || exists k | k in stored.fields :: !IsCount(stored.fields[k]) then Refused(())
    else Ok(Some(map k | k in stored.fields :: if stored.fields[k].Num? then stored.fields[k].n.Floor else 0))
  }

  /** `readSlots`: the entries are checked and copied one by one. */
  method ReadSlots(stored: Value) returns (r: Result<Option<map<string, int>>, ()>)
    ensures r == SlotsOf(stored)
  {
    if stored.Undefined? {
      return Ok(None);
    }
    if !stored.Obj? {
      return Refused(());
    }
    var left := stored.fields.Keys;
    var whole: map<string, int> := map[];
    while left != {}
      invariant left <= stored.fields.Keys && whole.Keys == stored.fields.Keys - left
      invariant forall k | k in whole :: IsCount(stored.fields[k]) && whole[k] == stored.fields[k].n.Floor
      decreases left
    {
      var slot :| slot in left;
      var count := stored.fields[slot];
      if !IsCount(count) {
        return Refused(());
      }
      whole := whole[slot := count.n.Floor];
      left := left - {slot};
    }
    assert whole == SlotsOf(stored).value.value;
    r := Ok(Some(whole));
  }

  function EnvelopeValue(e: Envelope): Value {
    Obj(map["v" := Num(e.v), "name" := Str(e.name), "data" := e.data, "origin" := Str(OriginText(e.origin)),
            "slots" := SlotsValue(e.slots)])
  }

  function ReadEnvelope(stored: Value): Result<Envelope, ()> {
    var v, name, origin := Field(stored, "v"), Field(stored, "name"), ReadOrigin(Field(stored, "origin"));
    if !v.Num? || !name.Str? || name.s == "" || origin.None? then Refused(())
    else
      match SlotsOf(Field(stored, "slots"))
      case Refused(_) => Refused(())
      case Ok(slots) => Ok(Envelope(v.n, name.s, Field(stored, "data"), origin.value, slots))
  }

  predicate JsonOrNothing(v: Value) { v.Undefined? || IsJson(v) }

  /** An envelope whose payload came out of a queue. */
  predicate Storable(e: Envelope) {
    e.name != "" && JsonOrNothing(e.data)
  }

  lemma SlotsSurvive(slots: Option<map<string, int>>)
    ensures slots.Some? ==> IsJson(SlotsValue(slots))
    ensures SlotsOf(SlotsValue(slots)) == Ok(slots)
  {
    if slots.Some? {
      var counts := slots.value;
      assert forall k | k in counts :: (counts[k] as real).Floor == counts[k];
      assert SlotsOf(SlotsValue(slots)).value.value == counts;
    }
  }

  /** The texts in use: an envelope by the record a queue holds. */
  lemma EnvelopeByItsText(v: real, name: string, data: Value, origin: Origin)
    requires name != ""
    ensures var text := if origin == Direct then "direct" else if origin == Scheduled then "schedule"
                        else if origin == Origin.Flow then "flow" else "relay";
            ReadEnvelope(Obj(map["v" := Num(v), "name" := Str(name), "data" := data, "origin" := Str(text)]))
            == Ok(Envelope(v, name, data, origin, None))
  {
    var stored := Obj(map["v" := Num(v), "name" := Str(name), "data" := data, "origin" := Str(OriginText(origin))]);
    assert Field(stored, "slots").Undefined? && Field(stored, "data") == data;
  }

  /** Every envelope comes back whole from the JSON it is stored as. */
  lemma EnvelopeSurvives(e: Envelope)
    requires Storable(e)
    ensures ReadEnvelope(Project(EnvelopeValue(e))) == Ok(e)
  {
    SlotsSurvive(e.slots);
    var stored := Project(EnvelopeValue(e));
    if e.slots.Some? { JsonProjectsToItself(SlotsValue(e.slots)); }
    if !e.data.Undefined? { JsonProjectsToItself(e.data); }
    var v := EnvelopeValue(e);
    FieldsProject(v, "v");
    FieldsProject(v, "name");
    FieldsProject(v, "data");
    FieldsProject(v, "origin");
    FieldsProject(v, "slots");
    assert Field(stored, "v") == Num(e.v) && Field(stored, "name") == Str(e.name);
    assert Field(stored, "origin") == Str(OriginText(e.origin));
    assert Field(stored, "data") == e.data;
    assert Field(stored, "slots") == SlotsValue(e.slots);
  }

  // ---------------------------------------------------------------- serialized errors

  datatype Snapshot = Snapshot(name: string, message: string, stack: Option<string>)

  datatype Serialized = Serialized(error: Snapshot, cause: Option<Snapshot>)

  function TextValue(text: Option<string>): Value {
    match text case None => Undefined case Some(s) => Str(s)
  }

  function SnapshotFields(s: Snapshot): map<string, Value> {
    map["name" := Str(s.name), "message" := Str(s.message), "stack" := TextValue(s.stack)]
  }

  function ErrorValue(e: Serialized): Value {
    Obj(SnapshotFields(e.error)["cause" := match e.cause case None => Undefined case Some(c) => Obj(SnapshotFields(c))])
  }

  function ReadSnapshot(stored: Value): Result<Snapshot, ()> {
    var name, message, stack := Field(stored, "name"), Field(stored, "message"), Field(stored, "stack");
    if !name.Str? || !message.Str? || !(stack.Undefined? || stack.Str?) then Refused(())
    else Ok(Snapshot(name.s, message.s, if stack.Str? then Some(stack.s) else None))
  }

  function ReadError(stored: Value): Result<Serialized, ()> {
    match ReadSnapshot(stored)
    case Refused(_) => Refused(())
    case Ok(error) =>
      if Field(stored, "cause").Undefined? then Ok(Serialized(error, None))
      else match ReadSnapshot(Field(stored, "cause"))
        case Refused(_) => Refused(())
        case Ok(cause) => Ok(Serialized(error, Some(cause)))
  }

  lemma ErrorSurvives(e: Serialized)
    ensures ReadError(Project(ErrorValue(e))) == Ok(e)
  {
    var v := ErrorValue(e);
    FieldsProject(v, "name");
    FieldsProject(v, "message");
    FieldsProject(v, "stack");
    FieldsProject(v, "cause");
    assert ReadSnapshot(Project(ErrorValue(e))) == Ok(e.error);
    if e.cause.Some? {
      SnapshotSurvives(e.cause.value);
    }
  }

  lemma SnapshotSurvives(s: Snapshot)
    ensures ReadSnapshot(Project(Obj(SnapshotFields(s)))) == Ok(s)
  {
    var v := Obj(SnapshotFields(s));
    FieldsProject(v, "name");
    FieldsProject(v, "message");
    FieldsProject(v, "stack");
  }

  // ---------------------------------------------------------------- dead records

  function ReasonText(r: R.Reason): string {
    match r
    case AttemptsExhausted => "attempts_exhausted"
    case Unrecoverably => "unrecoverable"
    case VersionIsAhead => "version_ahead"
    case WasCancelled => "cancelled"
    case ChildIsDead => "child_dead"
    case ChildrenAreShort => "children_short"
  }

  function ReadReason(v: Value): Option<R.Reason> {
    if v == Str("attempts_exhausted") then Some(R.AttemptsExhausted)
    else if v == Str("unrecoverable") then Some(R.Unrecoverably)
    else if v == Str("version_ahead") then Some(R.VersionIsAhead)
    else if v == Str("cancelled") then Some(R.WasCancelled)
    else if v == Str("child_dead") then Some(R.ChildIsDead)
    else if v == Str("children_short") then Some(R.ChildrenAreShort)
    else None
  }

  /** The texts in use. */
  lemma ReasonsByTheirText()
    ensures ReasonText(R.AttemptsExhausted) == "attempts_exhausted" && ReasonText(R.Unrecoverably) == "unrecoverable"
    ensures ReasonText(R.VersionIsAhead) == "version_ahead" && ReasonText(R.WasCancelled) == "cancelled"
    ensures ReasonText(R.ChildIsDead) == "child_dead" && ReasonText(R.ChildrenAreShort) == "children_short"
  {
  }

  lemma ReasonReadsBack(r: R.Reason)
    ensures ReadReason(Str(ReasonText(r))) == Some(r)
  {
  }

  datatype Entry = Entry(jobId: string, envelope: Envelope, error: Serialized, reason: R.Reason,
                         children: Option<seq<Value>>)

  function ChildValue(c: ChildResult): Value {
    Obj(map["slot" := Str(c.slot), "value" := c.value])
  }

  function ChildrenValue(children: Option<seq<Value>>): Value {
    match children case None => Undefined case Some(cs) => Arr(cs)
  }

  function EntryValue(e: Entry): Value {
    Obj(map["jobId" := Str(e.jobId), "envelope" := EnvelopeValue(e.envelope), "error" := ErrorValue(e.error),
            "reason" := Str(ReasonText(e.reason)), "children" := ChildrenValue(e.children)])
  }

  predicate NamesASlot(child: Value) { Field(child, "slot").Str? }

  /** A stored child as it is read: all its fields, and a value even if it holds none. */
  function ChildOf(child: Value): Value
    requires NamesASlot(child)
  {
    Obj(child.fields["value" := Field(child, "value")])
  }

  function ChildrenIn(stored: Value): Result<seq<Value>, ()> {
    if !stored.Arr? || exists i | 0 <= i < |stored.items| :: !NamesASlot(stored.items[i]) then Refused(())
    else Ok(seq(|stored.items|, i requires 0 <= i < |stored.items| =>
              if NamesASlot(stored.items[i]) then ChildOf(stored.items[i]) else Undefined))
  }

  /** `readChildren`: one by one, refusing the first that names no slot. */
  method ReadChildren(stored: Value) returns (r: Result<seq<Value>, ()>)
    ensures r == ChildrenIn(stored)
  {
    if !stored.Arr? {
      return Refused(());
    }
    var read: seq<Value> := [];
    for i := 0 to |stored.items|
      invariant |read| == i
      invariant forall k | 0 <= k < i :: NamesASlot(stored.items[k]) && read[k] == ChildOf(stored.items[k])
    {
      if !NamesASlot(stored.items[i]) {
        return Refused(());
      }
      read := read + [ChildOf(stored.items[i])];
    }
    assert read == ChildrenIn(stored).value;
    r := Ok(read);
  }

  function ReadDeadEntry(stored: Value): Result<Entry, ()> {
    var jobId, children := Field(stored, "jobId"), Field(stored, "children");
    var reason := ReadReason(Field(stored, "reason"));
    if !jobId.Str? || jobId.s == "" || reason.None? then Refused(())
    else
      match (ReadEnvelope(Field(stored, "envelope")), ReadError(Field(stored, "error")))
      case (Ok(envelope), Ok(error)) =>
        if reason.value.ChildIsDead? then
          (match ChildrenIn(children)
           case Refused(_) => Refused(())
           case Ok(read) => Ok(Entry(jobId.s, envelope, error, reason.value, Some(read))))
        else if !children.Undefined? then Refused(())
        else Ok(Entry(jobId.s, envelope, error, reason.value, None))
      case _ => Refused(())
  }

  /** A child as a record keeps it: a slot, a value that may be nothing, and whatever else JSON can keep. */
  predicate IsChild(c: Value) {
    && NamesASlot(c) && "value" in c.fields
    && forall k | k in c.fields :: IsJson(c.fields[k]) || (k == "value" && c.fields[k].Undefined?)
  }

  lemma ChildSurvives(c: Value)
    requires IsChild(c)
    ensures NamesASlot(Project(c)) && ChildOf(Project(c)) == c
  {
    FieldsProject(c, "slot");
    var read := ChildOf(Project(c)).fields;
    forall k | k in c.fields ensures k in read && read[k] == c.fields[k] {
      if IsJson(c.fields[k]) { JsonProjectsToItself(c.fields[k]); }
    }
    assert read == c.fields;
  }

  /** A burial: children exactly when a child is what it died of, and values a queue can keep. */
  predicate IsBurial(e: Entry) {
    && e.jobId != "" && Storable(e.envelope)
    && (e.children.Some? <==> e.reason.ChildIsDead?)
    && (e.children.Some? ==> forall i | 0 <= i < |e.children.value| :: IsChild(e.children.value[i]))
  }

  lemma ChildrenSurvive(cs: seq<Value>)
    requires forall i | 0 <= i < |cs| :: IsChild(cs[i])
    ensures ChildrenIn(Project(ChildrenValue(Some(cs)))) == Ok(cs)
  {
    var stored := Project(ChildrenValue(Some(cs)));
    forall i | 0 <= i < |cs| ensures NamesASlot(stored.items[i]) && ChildOf(stored.items[i]) == cs[i] {
      assert stored.items[i] == Project(cs[i]);
      ChildSurvives(cs[i]);
    }
    assert ChildrenIn(stored).value == cs;
  }

  /** Every burial comes back whole from the JSON the dead queue keeps: envelope and slot counts,
      error and cause, reason and children. */
  lemma BurialSurvives(e: Entry)
    requires IsBurial(e)
    ensures ReadDeadEntry(Project(EntryValue(e))) == Ok(e)
  {
    EnvelopeSurvives(e.envelope);
    ErrorSurvives(e.error);
    ReasonReadsBack(e.reason);
    if e.children.Some? { ChildrenSurvive(e.children.value); }
    EntryFields(e);
    ReadsAs(Project(EntryValue(e)), e);
  }

  lemma EntryFields(e: Entry)
    ensures var stored := Project(EntryValue(e));
            && Field(stored, "jobId") == Str(e.jobId) && Field(stored, "reason") == Str(ReasonText(e.reason))
            && Field(stored, "envelope") == Project(EnvelopeValue(e.envelope))
            && Field(stored, "error") == Project(ErrorValue(e.error))
            && Field(stored, "children") == Project(ChildrenValue(e.children))
  {
    var v := EntryValue(e);
    FieldsProject(v, "jobId");
    FieldsProject(v, "reason");
    FieldsProject(v, "envelope");
    FieldsProject(v, "error");
    FieldsProject(v, "children");
  }

  lemma ReadsAs(stored: Value, e: Entry)
    requires e.jobId != "" && Field(stored, "jobId") == Str(e.jobId)
    requires ReadReason(Field(stored, "reason")) == Some(e.reason)
    requires ReadEnvelope(Field(stored, "envelope")) == Ok(e.envelope)
    requires ReadError(Field(stored, "error")) == Ok(e.error)
    requires if e.children.None? then Field(stored, "children").Undefined? && !e.reason.ChildIsDead?
             else ChildrenIn(Field(stored, "children")) == Ok(e.children.value) && e.reason.ChildIsDead?
    ensures ReadDeadEntry(stored) == Ok(e)
  {
  }

  lemma ReadChildIsChild(item: Value)
    requires IsJson(item) && NamesASlot(item)
    ensures IsChild(ChildOf(item))
  {
  }

  predicate IsSnapshot(v: Value) {
    Field(v, "name").Str? && Field(v, "message").Str? && (Field(v, "stack").Undefined? || Field(v, "stack").Str?)
  }

  /** Which records are accepted, told by their fields: one that names a job, an envelope with a version, a name,
      a known origin and whole counts if any, an error with a cause like it if any, a known reason, and for a dead
      child a list of objects that each name a slot, for any other reason no children at all. */
  lemma AcceptedIff(stored: Value)
    ensures ReadEnvelope(stored).Ok? <==>
            && Field(stored, "v").Num? && Field(stored, "name").Str? && Field(stored, "name").s != ""
            && Field(stored, "origin") in {Str("direct"), Str("schedule"), Str("flow"), Str("relay")}
            && (var slots := Field(stored, "slots");
                || slots.Undefined?
                || (slots.Obj? && forall k | k in slots.fields :: slots.fields[k].Num? && IsWhole(slots.fields[k].n)))
    ensures ReadError(stored).Ok? <==>
            IsSnapshot(stored) && (Field(stored, "cause").Undefined? || IsSnapshot(Field(stored, "cause")))
    ensures ReadDeadEntry(stored).Ok? <==>
            && Field(stored, "jobId").Str? && Field(stored, "jobId").s != ""
            && ReadEnvelope(Field(stored, "envelope")).Ok? && ReadError(Field(stored, "error")).Ok?
            && (var children, reason := Field(stored, "children"), Field(stored, "reason");
                if reason == Str("child_dead")
                then children.Arr? && forall i | 0 <= i < |children.items| :: Field(children.items[i], "slot").Str?
                else children.Undefined?
                     && reason in {Str("attempts_exhausted"), Str("unrecoverable"), Str("version_ahead"),
                                   Str("cancelled"), Str("children_short")})
  {
    var slots := Field(stored, "slots");
    if slots.Obj? { assert (forall k | k in slots.fields :: IsCount(slots.fields[k])) <==> SlotsOf(slots).Ok?; }
    var children := Field(stored, "children");
    if children.Arr? {
      assert (forall i | 0 <= i < |children.items| :: NamesASlot(children.items[i])) <==> ChildrenIn(children).Ok?;
    }
  }

  /** Whatever a dead queue holds, a record that is accepted is a burial, children exactly for
      `child_dead`; written again it reads the same. */
  lemma AcceptedIsABurial(stored: Value)
    requires IsJson(stored) && ReadDeadEntry(stored).Ok?
    ensures IsBurial(ReadDeadEntry(stored).value)
    ensures ReadDeadEntry(Project(EntryValue(ReadDeadEntry(stored).value))) == ReadDeadEntry(stored)
  {
    var e := ReadDeadEntry(stored).value;
    assert forall name :: JsonOrNothing(Field(stored, name));
    var envelope := Field(stored, "envelope");
    assert forall name :: JsonOrNothing(Field(envelope, name));
    if e.children.Some? {
      var items := Field(stored, "children").items;
      forall i | 0 <= i < |items| ensures IsChild(e.children.value[i]) {
        ReadChildIsChild(items[i]);
      }
    }
    BurialSurvives(e);
  }

  function ChildObjects(results: seq<ChildResult>): seq<Value> {
    seq(|results|, i requires 0 <= i < |results| => ChildValue(results[i]))
  }

  /** What `report` buries: the delivery's own id and envelope, the error as it was serialized, and the
      reason the burial was decided for; `results` are what the dead child's error carries. */
  function ReportedEntry(queue: string, id: string, envelope: Envelope, error: Serialized, reason: R.Reason,
                         results: seq<ChildResult>): Entry {
    Entry(ComposeJobId(queue, id), envelope, error, reason,
          if reason.ChildIsDead? then Some(ChildObjects(results)) else None)
  }

  lemma ReadEnvelopeIsStorable(stored: Value)
    requires IsJson(stored) && ReadEnvelope(stored).Ok?
    ensures Storable(ReadEnvelope(stored).value)
  {
    assert JsonOrNothing(Field(stored, "data"));
  }

  /** It is this delivery's record: its id reads back as the queue and the job, its envelope and error are the
      delivery's, and for a dead child it lists what every child left, slot and value. */
  lemma WhatIsReported(queue: string, id: string, envelope: Envelope, error: Serialized, reason: R.Reason,
                       results: seq<ChildResult>)
    ensures var e := ReportedEntry(queue, id, envelope, error, reason, results);
            && e.envelope == envelope && e.error == error && e.reason == reason
            && (queue != "" && COLON !in queue && id != "" ==> ReadJobId(e.jobId) == Some(NamedJob(queue, id)))
            && (e.children.Some? <==> reason.ChildIsDead?)
            && (e.children.Some? ==>
                  && |e.children.value| == |results|
                  && forall i | 0 <= i < |results| ::
                       && Field(e.children.value[i], "slot") == Str(results[i].slot)
                       && Field(e.children.value[i], "value") == results[i].value)
  {
    JobIdReadsBackIff(queue, id);
  }

  lemma EntrySurvives(queue: string, id: string, stored: Value, error: Serialized, reason: R.Reason,
                      results: seq<ChildResult>)
    requires IsJson(stored) && ReadEnvelope(stored).Ok?
    requires forall i | 0 <= i < |results| :: JsonOrNothing(results[i].value)
    ensures var e := ReportedEntry(queue, id, ReadEnvelope(stored).value, error, reason, results);
            ReadDeadEntry(Project(EntryValue(e))) == Ok(e)
  {
    ReadEnvelopeIsStorable(stored);
    BurialSurvives(ReportedEntry(queue, id, ReadEnvelope(stored).value, error, reason, results));
  }

  lemma BuriedForAChildIff(attempt: nat, maxAttempts: nat, thrown: Error)
    ensures R.BurialFor(attempt, maxAttempts, thrown) == Some(R.ChildIsDead) <==>
            R.Raised(thrown).kind == ChildDead && thrown.kind !in {Cancelled, VersionAhead}
  {
  }

  /** Whatever a delivery fails with, of whatever attempt: if that buries the job, the record survives its
      JSON, and reads back with children exactly for an error that is, or wraps, a dead child. */
  lemma ReportedBurialSurvives(queue: string, id: string, stored: Value, attempt: nat, maxAttempts: nat, thrown: Error,
                               error: Serialized, results: seq<ChildResult>)
    requires IsJson(stored) && ReadEnvelope(stored).Ok? && R.BurialFor(attempt, maxAttempts, thrown).Some?
    requires forall i | 0 <= i < |results| :: JsonOrNothing(results[i].value)
    ensures var reason := R.BurialFor(attempt, maxAttempts, thrown).value;
            var e := ReportedEntry(queue, id, ReadEnvelope(stored).value, error, reason, results);
            && ReadDeadEntry(Project(EntryValue(e))) == Ok(e)
            && (e.children.Some? <==> R.Raised(thrown).kind == ChildDead && thrown.kind !in {Cancelled, VersionAhead})
  {
    EntrySurvives(queue, id, stored, error, R.BurialFor(attempt, maxAttempts, thrown).value, results);
    BuriedForAChildIff(attempt, maxAttempts, thrown);
  }
}
