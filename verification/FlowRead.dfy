/** What a parent reads of its children: the Redis reply cut back into slots, and the refusals
    that stand between that reading and the handler. */
module FlowRead {
  import opened Errors
  import opened JobId
  import opened Definition
  import opened Flow

  datatype ChildResult = ChildResult(slot: string, value: Value)
  datatype ChildFailure = ChildFailure(id: string, slot: string, reason: string)
  datatype FlowState = FlowState(results: seq<ChildResult>, failures: seq<ChildFailure>, pending: nat)

  // ---------------------------------------------------------------- the reply of the read script

  /** Two hashes as flat lists of keys and values, and how many dependencies are left. */
  datatype Reply = Reply(processed: seq<string>, failed: seq<string>, pending: nat)

  function HashEntries(flat: seq<string>): seq<(string, string)> {
    if flat == [] then []
    else if |flat| == 1 then [(flat[0], "undefined")]
    else [(flat[0], flat[1])] + HashEntries(flat[2..])
  }

  function ReadResults(entries: seq<(string, string)>, parse: string -> Value): seq<ChildResult> {
    if entries == [] then []
    else [ChildResult(ReadChildSlot(ReadChildKey(entries[0].0).storedId), parse(entries[0].1))]
         + ReadResults(entries[1..], parse)
  }

  function ReadFailures(entries: seq<(string, string)>): seq<ChildFailure> {
    if entries == [] then []
    else
      var child := ReadChildKey(entries[0].0);
      [ChildFailure(ComposeJobId(child.queue, child.storedId), ReadChildSlot(child.storedId), entries[0].1)]
      + ReadFailures(entries[1..])
  }

  /** `parse` is `JSON.parse`, answering `Undefined` for what is no JSON. */
  function ReadFlowState(reply: Reply, parse: string -> Value): FlowState {
    FlowState(ReadResults(HashEntries(reply.processed), parse), ReadFailures(HashEntries(reply.failed)), reply.pending)
  }

  /** A child as a parent's hash files it. */
  datatype Filed = Filed(queue: string, slot: string, unique: string, text: string)

  predicate Fileable(f: Filed) {
    COLON !in f.queue && IsSlotName(f.slot) && IsUniqueHalf(f.unique)
  }

  function KeyFor(prefix: string, f: Filed): string {
    JobKey(prefix, f.queue, ComposeChildId(f.slot, f.unique))
  }

  function HashOf(prefix: string, filed: seq<Filed>): seq<string> {
    if filed == [] then []
    else [KeyFor(prefix, filed[0]), filed[0].text] + HashOf(prefix, filed[1..])
  }

  lemma KeyReadsBack(prefix: string, f: Filed)
    requires Fileable(f)
    ensures ReadChildKey(KeyFor(prefix, f)) == NamedJob(f.queue, ComposeChildId(f.slot, f.unique))
    ensures ReadChildSlot(ReadChildKey(KeyFor(prefix, f)).storedId) == f.slot
  {
    SlotReadsBackFromJobKey(prefix, f.queue, f.slot, f.unique);
    ChildKeyReadsBack(prefix, f.queue, ComposeChildId(f.slot, f.unique));
  }

  lemma {:induction false} EntriesOfHash(prefix: string, filed: seq<Filed>)
    ensures HashEntries(HashOf(prefix, filed)) ==
              seq(|filed|, i requires 0 <= i < |filed| => (KeyFor(prefix, filed[i]), filed[i].text))
    decreases filed
  {
    if filed != [] {
      assert HashOf(prefix, filed)[2..] == HashOf(prefix, filed[1..]);
      EntriesOfHash(prefix, filed[1..]);
    }
  }

  lemma {:induction false} EachEntryIsRead(entries: seq<(string, string)>, parse: string -> Value, i: nat)
    requires i < |entries|
    ensures |ReadResults(entries, parse)| == |ReadFailures(entries)| == |entries|
    ensures ReadResults(entries, parse)[i] ==
            ChildResult(ReadChildSlot(ReadChildKey(entries[i].0).storedId), parse(entries[i].1))
    ensures ReadFailures(entries)[i] ==
            var child := ReadChildKey(entries[i].0);
            ChildFailure(ComposeJobId(child.queue, child.storedId), ReadChildSlot(child.storedId), entries[i].1)
    decreases entries
  {
    if |entries| > 1 {
      EachEntryIsRead(entries[1..], parse, if i > 0 then i - 1 else 0);
    }
  }

  lemma HashReadsBack(prefix: string, filed: seq<Filed>, parse: string -> Value)
    requires forall i | 0 <= i < |filed| :: Fileable(filed[i])
    ensures var entries := HashEntries(HashOf(prefix, filed));
            && |ReadResults(entries, parse)| == |ReadFailures(entries)| == |filed|
            && forall i | 0 <= i < |filed| ::
                 && ReadResults(entries, parse)[i] == ChildResult(filed[i].slot, parse(filed[i].text))
                 && ReadFailures(entries)[i] ==
                    ChildFailure(ComposeJobId(filed[i].queue, ComposeChildId(filed[i].slot, filed[i].unique)),
                                 filed[i].slot, filed[i].text)
  {
    var entries := HashEntries(HashOf(prefix, filed));
    EntriesOfHash(prefix, filed);
    forall i | 0 <= i < |filed|
      ensures |ReadResults(entries, parse)| == |ReadFailures(entries)| == |filed|
      ensures ReadResults(entries, parse)[i] == ChildResult(filed[i].slot, parse(filed[i].text))
      ensures ReadFailures(entries)[i] ==
              ChildFailure(ComposeJobId(filed[i].queue, ComposeChildId(filed[i].slot, filed[i].unique)),
                           filed[i].slot, filed[i].text)
    {
      EachEntryIsRead(entries, parse, i);
      KeyReadsBack(prefix, filed[i]);
    }
  }

  /** Under every prefix, what the script replies reads back as each child's own slot, with the
      value it left or with the id a retry of it takes. */
  lemma ReplyReadsBack(prefix: string, done: seq<Filed>, dead: seq<Filed>, pending: nat, parse: string -> Value)
    requires forall i | 0 <= i < |done| :: Fileable(done[i])
    requires forall i | 0 <= i < |dead| :: Fileable(dead[i])
    ensures var state := ReadFlowState(Reply(HashOf(prefix, done), HashOf(prefix, dead), pending), parse);
            && state.pending == pending && |state.results| == |done| && |state.failures| == |dead|
            && (forall i | 0 <= i < |done| :: state.results[i] == ChildResult(done[i].slot, parse(done[i].text)))
            && (forall i | 0 <= i < |dead| ::
                  && state.failures[i].slot == dead[i].slot && state.failures[i].reason == dead[i].text
                  && (dead[i].queue != "" ==>
                        ReadJobId(state.failures[i].id) ==
                        Some(NamedJob(dead[i].queue, ComposeChildId(dead[i].slot, dead[i].unique)))))
  {
    HashReadsBack(prefix, done, parse);
    HashReadsBack(prefix, dead, parse);
    forall i | 0 <= i < |dead| {
      JobIdReadsBackIff(dead[i].queue, ComposeChildId(dead[i].slot, dead[i].unique));
    }
  }

  // ---------------------------------------------------------------- what stands before the handler

  datatype SlotValue = One(value: Value) | Many(values: seq<Value>)

  datatype Refusal = Pending | Dead(results: seq<ChildResult>) | Short | ValueRefused

  function ValuesIn(results: seq<ChildResult>, slot: string): seq<Value> {
    if results == [] then []
    else (if results[0].slot == slot then [results[0].value] else []) + ValuesIn(results[1..], slot)
  }

  function ValidateAll(d: Definition, values: seq<Value>): (r: Option<seq<Value>>)
    ensures r.Some? ==> |r.value| == |values|
                        && forall i | 0 <= i < |values| :: ValidateResult(d, values[i]) == Some(r.value[i])
    ensures r.None? ==> exists i | 0 <= i < |values| :: ValidateResult(d, values[i]).None?
  {
    if values == [] then Some([])
    else
      match (ValidateResult(d, values[0]), ValidateAll(d, values[1..]))
      case (Some(v), Some(rest)) => Some([v] + rest)
      case (None, _) => None
      case (_, None) =>
        assert exists i | 0 <= i < |values[1..]| :: ValidateResult(d, values[1..][i]).None?;
        None
  }

  predicate IsShort(d: Definition, declared: Option<map<string, int>>, state: FlowState) {
    exists i | 0 <= i < |d.slots| ::
      || declared.None? || d.slots[i].name !in declared.value
      || |ValuesIn(state.results, d.slots[i].name)| < declared.value[d.slots[i].name]
  }

  function ChildrenOf(slots: seq<Slot>, state: FlowState): (r: Option<map<string, SlotValue>>)
    ensures r.Some? ==> r.value.Keys == SlotNames(slots)
    ensures r.Some? && DistinctNames(slots) ==> forall i | 0 <= i < |slots| ::
              && ValidateAll(slots[i].definition, ValuesIn(state.results, slots[i].name)).Some?
              && r.value[slots[i].name] ==
                 Filled(slots[i], ValidateAll(slots[i].definition, ValuesIn(state.results, slots[i].name)).value)
  {
    if slots == [] then Some(map[])
    else
      match (ValidateAll(slots[0].definition, ValuesIn(state.results, slots[0].name)), ChildrenOf(slots[1..], state))
      case (Some(values), Some(rest)) =>
        assert SlotNames(slots) == {slots[0].name} + SlotNames(slots[1..]) by {
          forall i | 1 <= i < |slots| ensures slots[i].name in SlotNames(slots[1..]) {
            assert slots[1..][i - 1] == slots[i];
          }
        }
        assert forall i | 1 <= i < |slots| :: slots[i] == slots[1..][i - 1];
        Some(rest[slots[0].name := Filled(slots[0], values)])
      case _ => None
  }

  /** Every value of every slot passes its schema. */
  predicate AllAccepted(slots: seq<Slot>, state: FlowState) {
    forall i, j | 0 <= i < |slots| && 0 <= j < |ValuesIn(state.results, slots[i].name)| ::
      ValidateResult(slots[i].definition, ValuesIn(state.results, slots[i].name)[j]).Some?
  }

  lemma {:induction false} AcceptedIsGiven(slots: seq<Slot>, state: FlowState)
    requires AllAccepted(slots, state)
    ensures ChildrenOf(slots, state).Some?
    decreases slots
  {
    if slots != [] {
      assert forall i | 1 <= i < |slots| :: slots[i] == slots[1..][i - 1];
      AcceptedIsGiven(slots[1..], state);
      assert ValidateAll(slots[0].definition, ValuesIn(state.results, slots[0].name)).Some?;
    }
  }

  function Filled(slot: Slot, values: seq<Value>): SlotValue {
    if slot.many then Many(values) else One(if values == [] then Undefined else values[0])
  }

  /** `childrenFor`: what the handler is given, or why it does not run. */
  function ChildrenFor(d: Definition, declared: Option<map<string, int>>, state: FlowState)
    : Result<map<string, SlotValue>, Refusal>
  {
    if d.slots == [] then Ok(map[])
    else if state.pending > 0 then Refused(Pending)
    else if state.failures != [] then Refused(Dead(state.results))
    else if IsShort(d, declared, state) then Refused(Short)
    else match ChildrenOf(d.slots, state)
      case Some(children) => Ok(children)
      case None => Refused(ValueRefused)
  }

  // ---------------------------------------------------------------- children as the store keeps them

  /** A child of a stored parent is in exactly one of these, `Gone` leaving no trace. */
  datatype Status = InFlight | Processed(value: Value) | FailedFor(reason: string) | Gone

  function Results(children: seq<Child>, sts: seq<Status>): seq<ChildResult>
    requires |children| == |sts|
  {
    if children == [] then []
    else (if sts[0].Processed? then [ChildResult(children[0].slot, sts[0].value)] else [])
         + Results(children[1..], sts[1..])
  }

  function CountInFlight(sts: seq<Status>): (n: nat)
    ensures n == 0 <==> forall i | 0 <= i < |sts| :: !sts[i].InFlight?
  {
    if sts == [] then 0
    else
      assert forall i | 1 <= i < |sts| :: sts[i] == sts[1..][i - 1];
      (if sts[0].InFlight? then 1 else 0) + CountInFlight(sts[1..])
  }

  function CountFailed(sts: seq<Status>): (n: nat)
    ensures n == 0 <==> forall i | 0 <= i < |sts| :: !sts[i].FailedFor?
  {
    if sts == [] then 0
    else
      assert forall i | 1 <= i < |sts| :: sts[i] == sts[1..][i - 1];
      (if sts[0].FailedFor? then 1 else 0) + CountFailed(sts[1..])
  }

  /** One read of a parent's children. A Redis hash keeps no order, so any order is a read. */
  predicate Reflects(children: seq<Child>, sts: seq<Status>, read: FlowState) {
    && |children| == |sts|
    && multiset(read.results) == multiset(Results(children, sts))
    && |read.failures| == CountFailed(sts)
    && read.pending == CountInFlight(sts)
  }

  lemma {:induction false} ValuesCounted(results: seq<ChildResult>, slot: string, v: Value)
    ensures multiset(ValuesIn(results, slot))[v] == multiset(results)[ChildResult(slot, v)]
    decreases results
  {
    if results != [] {
      ValuesCounted(results[1..], slot, v);
      assert results == [results[0]] + results[1..];
      var first := if results[0].slot == slot then [results[0].value] else [];
      assert ValuesIn(results, slot) == first + ValuesIn(results[1..], slot);
    }
  }

  lemma OrderDoesNotMatter(xs: seq<ChildResult>, ys: seq<ChildResult>, slot: string)
    requires multiset(xs) == multiset(ys)
    ensures multiset(ValuesIn(xs, slot)) == multiset(ValuesIn(ys, slot))
    ensures |ValuesIn(xs, slot)| == |ValuesIn(ys, slot)|
  {
    forall v ensures multiset(ValuesIn(xs, slot))[v] == multiset(ValuesIn(ys, slot))[v] {
      ValuesCounted(xs, slot, v);
      ValuesCounted(ys, slot, v);
    }
    assert multiset(ValuesIn(xs, slot)) == multiset(ValuesIn(ys, slot));
    assert |multiset(ValuesIn(xs, slot))| == |ValuesIn(xs, slot)|;
  }

  /** The pigeonhole: as many results as children in a slot means a result of every one. */
  lemma {:induction false} ArrivedIffAll(children: seq<Child>, sts: seq<Status>, slot: string)
    requires |children| == |sts|
    ensures var arrived := |ValuesIn(Results(children, sts), slot)|;
            && arrived <= CountSlot(children, slot)
            && (arrived == CountSlot(children, slot) <==>
                forall i | 0 <= i < |children| && children[i].slot == slot :: sts[i].Processed?)
    decreases children
  {
    if children != [] {
      ArrivedIffAll(children[1..], sts[1..], slot);
      assert forall i | 1 <= i < |children| :: children[i] == children[1..][i - 1] && sts[i] == sts[1..][i - 1];
      var rest := Results(children[1..], sts[1..]);
      var all := Results(children, sts);
      if sts[0].Processed? {
        assert all == [ChildResult(children[0].slot, sts[0].value)] + rest;
        assert all[1..] == rest;
      } else {
        assert all == rest;
      }
    }
  }

  /** The rule a flow exists for: a stored parent, read in any order at any moment, gets past the
      refusals exactly when every one of its children holds a result; a child in flight, failed
      or gone without a trace always stops it. */
  lemma HandlerReachedIffEveryChildHasAResult(node: Node, sts: seq<Status>, read: FlowState)
    requires IsDefined(node.definition) && Counted(node) && Reflects(node.children, sts, read)
    ensures var r := ChildrenFor(node.definition, node.envelope.slots, read);
            r.Ok? || r.why.ValueRefused? <==> forall i | 0 <= i < |sts| :: sts[i].Processed?
  {
    SlotsAreDeclared(node);
    ShortIffOneIsMissing(node, sts, read);
  }

  lemma SlotsAreDeclared(node: Node)
    requires Counted(node)
    ensures forall i | 0 <= i < |node.children| :: node.children[i].slot in SlotNames(node.definition.slots)
  {
    forall i | 0 <= i < |node.children| ensures node.children[i].slot in SlotNames(node.definition.slots) {
      assert ChildCounted(node.definition, node.children[i]);
    }
  }

  lemma ShortIffOneIsMissing(node: Node, sts: seq<Status>, read: FlowState)
    requires Counted(node) && Reflects(node.children, sts, read)
    ensures IsShort(node.definition, node.envelope.slots, read) <==> exists i | 0 <= i < |sts| :: !sts[i].Processed?
  {
    forall i | 0 <= i < |sts| && !sts[i].Processed? ensures IsShort(node.definition, node.envelope.slots, read) {
      assert ChildCounted(node.definition, node.children[i]);
      var m :| 0 <= m < |node.definition.slots| && node.definition.slots[m].name == node.children[i].slot;
      SlotIsFullIff(node, sts, read, m);
    }
    if m :| 0 <= m < |node.definition.slots| &&
            (var declared := node.envelope.slots; var name := node.definition.slots[m].name;
             declared.None? || name !in declared.value || |ValuesIn(read.results, name)| < declared.value[name]) {
      SlotIsFullIff(node, sts, read, m);
    }
  }

  lemma SlotIsFullIff(node: Node, sts: seq<Status>, read: FlowState, m: nat)
    requires Counted(node) && Reflects(node.children, sts, read) && m < |node.definition.slots|
    ensures var name := node.definition.slots[m].name;
            && node.envelope.slots.Some? && name in node.envelope.slots.value
            && (|ValuesIn(read.results, name)| >= node.envelope.slots.value[name] <==>
                forall i | 0 <= i < |sts| && node.children[i].slot == name :: sts[i].Processed?)
  {
    var name := node.definition.slots[m].name;
    assert name in SlotNames(node.definition.slots);
    OrderDoesNotMatter(read.results, Results(node.children, sts), name);
    ArrivedIffAll(node.children, sts, name);
  }

  /** And which refusal it is says what the children are: one still in flight outranks one that failed
      for good, which outranks one that is gone. */
  lemma RefusalNamesTheWorstChild(node: Node, sts: seq<Status>, read: FlowState)
    requires IsDefined(node.definition) && Counted(node) && Reflects(node.children, sts, read)
    ensures var r := ChildrenFor(node.definition, node.envelope.slots, read);
            && (r == Refused(Pending) <==> exists i | 0 <= i < |sts| :: sts[i].InFlight?)
            && (r == Refused(Dead(read.results)) <==>
                  (forall i | 0 <= i < |sts| :: !sts[i].InFlight?) && exists i | 0 <= i < |sts| :: sts[i].FailedFor?)
            && (r == Refused(Short) <==>
                  && (forall i | 0 <= i < |sts| :: !sts[i].InFlight? && !sts[i].FailedFor?)
                  && exists i | 0 <= i < |sts| :: sts[i].Gone?)
  {
    HandlerReachedIffEveryChildHasAResult(node, sts, read);
  }

  /** The values of one slot, over all the children that fill it. */
  function ChildValues(children: seq<Child>, sts: seq<Status>, slot: string): multiset<Value>
    requires |children| == |sts|
  {
    multiset(ValuesIn(Results(children, sts), slot))
  }

  /** A handler that runs is given, slot by slot, what the schema makes of every child's value:
      each exactly once, in whatever order the hash gave them. */
  lemma HandlerReadsEveryValue(node: Node, sts: seq<Status>, read: FlowState, m: nat)
    requires IsDefined(node.definition) && Counted(node) && Reflects(node.children, sts, read)
    requires m < |node.definition.slots|
    requires ChildrenFor(node.definition, node.envelope.slots, read).Ok?
    ensures var slot := node.definition.slots[m];
            var given := ChildrenFor(node.definition, node.envelope.slots, read).value;
            var raw := ValuesIn(read.results, slot.name);
            && multiset(raw) == ChildValues(node.children, sts, slot.name)
            && |raw| == CountSlot(node.children, slot.name)
            && slot.name in given
            && (slot.many <==> given[slot.name].Many?)
            && (slot.many ==>
                  && |given[slot.name].values| == |raw|
                  && forall i | 0 <= i < |raw| ::
                       ValidateResult(slot.definition, raw[i]) == Some(given[slot.name].values[i]))
            && (!slot.many && raw != [] ==> ValidateResult(slot.definition, raw[0]) == Some(given[slot.name].value))
  {
    var slot := node.definition.slots[m];
    OrderDoesNotMatter(read.results, Results(node.children, sts), slot.name);
    assert |ValuesIn(read.results, slot.name)| == CountSlot(node.children, slot.name) by {
      HandlerReachedIffEveryChildHasAResult(node, sts, read);
      ArrivedIffAll(node.children, sts, slot.name);
    }
    GivenFromTheSlot(node.definition, node.envelope.slots, read, m);
  }

  lemma GivenFromTheSlot(d: Definition, declared: Option<map<string, int>>, read: FlowState, m: nat)
    requires DistinctNames(d.slots) && m < |d.slots| && ChildrenFor(d, declared, read).Ok?
    ensures var values := ValidateAll(d.slots[m].definition, ValuesIn(read.results, d.slots[m].name));
            && values.Some? && d.slots[m].name in ChildrenFor(d, declared, read).value
            && ChildrenFor(d, declared, read).value[d.slots[m].name] == Filled(d.slots[m], values.value)
  {
    assert d.slots[m].name in SlotNames(d.slots);
    assert ChildrenOf(d.slots, read).Some?;
  }

  // ---------------------------------------------------------------- from the tree to the reply

  /** The entries Redis files for the children of one parent: `uniques` are the random halves of
      their ids, `text` what a value is stored as. */
  function FiledDone(children: seq<Child>, sts: seq<Status>, uniques: seq<string>, text: Value -> string): seq<Filed>
    requires |children| == |sts| == |uniques|
  {
    if children == [] then []
    else (if sts[0].Processed? then [Filed(children[0].node.queue, children[0].slot, uniques[0], text(sts[0].value))]
          else [])
         + FiledDone(children[1..], sts[1..], uniques[1..], text)
  }

  function FiledDead(children: seq<Child>, sts: seq<Status>, uniques: seq<string>): seq<Filed>
    requires |children| == |sts| == |uniques|
  {
    if children == [] then []
    else (if sts[0].FailedFor? then [Filed(children[0].node.queue, children[0].slot, uniques[0], sts[0].reason)]
          else [])
         + FiledDead(children[1..], sts[1..], uniques[1..])
  }

  function ResultsOf(filed: seq<Filed>, parse: string -> Value): seq<ChildResult> {
    seq(|filed|, i requires 0 <= i < |filed| => ChildResult(filed[i].slot, parse(filed[i].text)))
  }

  lemma ReadInParts(xs: seq<Filed>, ys: seq<Filed>, parse: string -> Value)
    ensures multiset(ResultsOf(xs + ys, parse)) == multiset(ResultsOf(xs, parse)) + multiset(ResultsOf(ys, parse))
  {
    assert ResultsOf(xs + ys, parse) == ResultsOf(xs, parse) + ResultsOf(ys, parse);
  }

  /** Where one entry stands makes no difference to what is read. */
  lemma ReadOneApart(xs: seq<Filed>, j: nat, parse: string -> Value)
    requires j < |xs|
    ensures multiset(xs) == multiset(xs[..j] + xs[j + 1..]) + multiset{xs[j]}
    ensures multiset(ResultsOf(xs, parse))
            == multiset(ResultsOf(xs[..j] + xs[j + 1..], parse)) + multiset{ChildResult(xs[j].slot, parse(xs[j].text))}
  {
    var a, b := xs[..j], xs[j + 1..];
    assert xs == (a + [xs[j]]) + b;
    ReadInParts(a, b, parse);
    ReadInParts(a + [xs[j]], b, parse);
    ReadInParts(a, [xs[j]], parse);
    assert ResultsOf([xs[j]], parse) == [ChildResult(xs[j].slot, parse(xs[j].text))];
  }

  lemma {:induction false} ReadingKeepsTheMultiset(xs: seq<Filed>, ys: seq<Filed>, parse: string -> Value)
    requires multiset(xs) == multiset(ys)
    ensures multiset(ResultsOf(xs, parse)) == multiset(ResultsOf(ys, parse))
    decreases xs
  {
    if xs == [] {
      assert |multiset(ys)| == 0;
    } else {
      assert xs[0] in multiset(ys);
      var j :| 0 <= j < |ys| && ys[j] == xs[0];
      ReadOneApart(xs, 0, parse);
      ReadOneApart(ys, j, parse);
      assert xs[..0] + xs[1..] == xs[1..];
      var rest := ys[..j] + ys[j + 1..];
      assert multiset(xs[1..]) == multiset(xs) - multiset{xs[0]} && multiset(rest) == multiset(ys) - multiset{xs[0]};
      ReadingKeepsTheMultiset(xs[1..], rest, parse);
    }
  }

  lemma {:induction false} FiledAsStatuses(children: seq<Child>, sts: seq<Status>, uniques: seq<string>,
                                           text: Value -> string, parse: string -> Value)
    requires |children| == |sts| == |uniques|
    requires forall i | 0 <= i < |sts| && sts[i].Processed? :: parse(text(sts[i].value)) == sts[i].value
    requires forall i | 0 <= i < |children| ::
               COLON !in children[i].node.queue && IsSlotName(children[i].slot) && IsUniqueHalf(uniques[i])
    ensures ResultsOf(FiledDone(children, sts, uniques, text), parse) == Results(children, sts)
    ensures |FiledDead(children, sts, uniques)| == CountFailed(sts)
    ensures forall f | f in FiledDone(children, sts, uniques, text) :: Fileable(f)
    ensures forall f | f in FiledDead(children, sts, uniques) :: Fileable(f)
    decreases children
  {
    if children != [] {
      FiledAsStatuses(children[1..], sts[1..], uniques[1..], text, parse);
      var done := FiledDone(children[1..], sts[1..], uniques[1..], text);
      if sts[0].Processed? {
        var f := Filed(children[0].node.queue, children[0].slot, uniques[0], text(sts[0].value));
        assert ResultsOf([f] + done, parse) == [ChildResult(f.slot, parse(f.text))] + ResultsOf(done, parse);
      } else {
        assert FiledDone(children, sts, uniques, text) == done;
      }
    }
  }

  lemma ChildrenAreFileable(node: Node)
    requires IsDefined(node.definition) && Counted(node)
    ensures forall i | 0 <= i < |node.children| ::
              COLON !in node.children[i].node.queue && IsSlotName(node.children[i].slot)
  {
    forall i | 0 <= i < |node.children|
      ensures COLON !in node.children[i].node.queue && IsSlotName(node.children[i].slot)
    {
      assert ChildCounted(node.definition, node.children[i]);
      var m :| 0 <= m < |node.definition.slots| && node.definition.slots[m].name == node.children[i].slot;
      SlotNamedIs(node.definition.slots, m);
      assert Counted(node.children[i].node) && IsDefined(node.definition.slots[m].definition);
    }
  }

  /** What the read script replies for a stored parent, its hashes in any order, under any prefix, is
      one true read of its children: slots and values are those of the composed tree. */
  lemma ReplyReflectsTheChildren(node: Node, sts: seq<Status>, uniques: seq<string>, prefix: string,
                                 text: Value -> string, parse: string -> Value, done: seq<Filed>, dead: seq<Filed>)
    requires IsDefined(node.definition) && Counted(node) && |node.children| == |sts| == |uniques|
    requires forall i | 0 <= i < |uniques| :: IsUniqueHalf(uniques[i])
    requires forall i | 0 <= i < |sts| && sts[i].Processed? :: parse(text(sts[i].value)) == sts[i].value
    requires multiset(done) == multiset(FiledDone(node.children, sts, uniques, text))
    requires multiset(dead) == multiset(FiledDead(node.children, sts, uniques))
    ensures var reply := Reply(HashOf(prefix, done), HashOf(prefix, dead), CountInFlight(sts));
            Reflects(node.children, sts, ReadFlowState(reply, parse))
  {
    ChildrenAreFileable(node);
    FiledAsStatuses(node.children, sts, uniques, text, parse);
    SameElements(done, FiledDone(node.children, sts, uniques, text));
    SameElements(dead, FiledDead(node.children, sts, uniques));
    ReadsTrue(prefix, done, dead, CountInFlight(sts), parse);
    ReadingKeepsTheMultiset(done, FiledDone(node.children, sts, uniques, text), parse);
  }

  lemma SameElements<T>(xs: seq<T>, ys: seq<T>)
    requires multiset(xs) == multiset(ys)
    ensures |xs| == |ys| && forall x | x in xs :: x in ys
  {
    assert |multiset(xs)| == |xs| && |multiset(ys)| == |ys|;
    forall x | x in xs ensures x in ys { assert x in multiset(xs); }
  }

  lemma ReadsTrue(prefix: string, done: seq<Filed>, dead: seq<Filed>, pending: nat, parse: string -> Value)
    requires forall f | f in done :: Fileable(f)
    requires forall f | f in dead :: Fileable(f)
    ensures var read := ReadFlowState(Reply(HashOf(prefix, done), HashOf(prefix, dead), pending), parse);
            read.results == ResultsOf(done, parse) && |read.failures| == |dead| && read.pending == pending
  {
    ReplyReadsBack(prefix, done, dead, pending, parse);
  }
}
