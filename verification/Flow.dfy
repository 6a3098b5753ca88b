/** A flow: the tree `composeFlow` builds, the counts it writes, and what a parent is allowed to
    read of its children. */
module Flow {
  import opened Errors
  import opened Definition

  // ---------------------------------------------------------------- composing the tree

  /** `definition` is the one a worker finds under the name in the envelope. */
  datatype Node = Node(
    definition: Definition, queue: string, envelope: Envelope, unique: bool, children: seq<Child>)

  datatype Child = Child(slot: string, node: Node)

  datatype Why = NothingPassed | MissingSlot | WrongArity(slot: string) | PayloadRefused | UniqueInFlow

  function AssertAwaitsInput(d: Definition, awaits: Value): Result<Value, Why> {
    if d.slots == [] then Ok(Obj(map[]))
    else if !awaits.Obj? then Refused(NothingPassed)
    else if exists i | 0 <= i < |d.slots| :: Field(awaits, d.slots[i].name).Undefined? then Refused(MissingSlot)
    else CheckArity(d.slots, awaits)
  }

  function CheckArity(slots: seq<Slot>, awaits: Value): (r: Result<Value, Why>)
    ensures r.Ok? <==> forall i | 0 <= i < |slots| :: slots[i].many == Field(awaits, slots[i].name).Arr?
    ensures r.Ok? ==> r.value == awaits
    ensures r.Refused? ==> r.why.WrongArity?
  {
    if slots == [] then Ok(awaits)
    else if slots[0].many != Field(awaits, slots[0].name).Arr? then Refused(WrongArity(slots[0].name))
    else
      var rest := CheckArity(slots[1..], awaits);
      assert rest.Ok? ==> forall i | 1 <= i < |slots| :: slots[1..][i - 1] == slots[i];
      rest
  }

  /** The payload and the slot input one value of a slot stands for: a leaf takes the whole value as its
      payload, a parent expects the two as fields of a record, each read on its own. */
  function ChildInput(slot: Slot, given: Value): (Value, Value) {
    if slot.definition.slots == [] then (given, Undefined)
    else (Field(given, "data"), Field(given, "awaits"))
  }

  /** What one slot was given, as a list. */
  function Given(slot: Slot, filled: Value): seq<Value> {
    var given := Field(filled, slot.name);
    if !slot.many then [given] else if given.Arr? then given.items else []
  }

  function ComposeMany(slot: Slot, given: seq<Value>): (r: Result<seq<Child>, Why>)
    decreases slot, |given|
  {
    if given == [] then Ok([])
    else
      var (data, awaits) := ChildInput(slot, given[0]);
      match Compose(slot.definition, data, awaits)
      case Refused(why) => Refused(why)
      case Ok(node) =>
        match ComposeMany(slot, given[1..])
        case Refused(why) => Refused(why)
        case Ok(rest) => Ok([Child(slot.name, node)] + rest)
  }

  function ComposeSlots(d: Definition, n: nat, filled: Value): (r: Result<seq<Child>, Why>)
    requires n <= |d.slots|
    decreases d, 0, |d.slots| - n
  {
    if n == |d.slots| then Ok([])
    else
      match ComposeMany(d.slots[n], Given(d.slots[n], filled))
      case Refused(why) => Refused(why)
      case Ok(first) =>
        match ComposeSlots(d, n + 1, filled)
        case Refused(why) => Refused(why)
        case Ok(rest) => Ok(first + rest)
  }

  /** How many children of a list fill one slot. */
  function CountSlot(children: seq<Child>, slot: string): nat {
    if children == [] then 0
    else (if children[0].slot == slot then 1 else 0) + CountSlot(children[1..], slot)
  }

  /** The counts `composeFlow` writes are taken from what each slot was given. */
  function GivenCounts(d: Definition, filled: Value): map<string, int> {
    map name | name in SlotNames(d.slots) :: |Given(SlotNamed(d.slots, name), filled)|
  }

  function SlotNamed(slots: seq<Slot>, name: string): (slot: Slot)
    requires name in SlotNames(slots)
    ensures slot in slots && slot.name == name
  {
    if slots[0].name == name then slots[0]
    else
      assert name in SlotNames(slots[1..]) by {
        var i :| 0 <= i < |slots| && slots[i].name == name;
        assert slots[1..][i - 1].name == name;
      }
      SlotNamed(slots[1..], name)
  }

  function Compose(d: Definition, data: Value, awaits: Value): (r: Result<Node, Why>)
    decreases d, 1
  {
    match AssertAwaitsInput(d, awaits)
    case Refused(why) => Refused(why)
    case Ok(filled) =>
      match d.payload(data)
      case None => Refused(PayloadRefused)
      case Some(validated) =>
        if d.unique(validated) then Refused(UniqueInFlow)
        else
          match ComposeSlots(d, 0, filled)
          case Refused(why) => Refused(why)
          case Ok(children) =>
            var envelope := WriteEnvelope(d, data, Flow);
            Ok(Node(d, d.queue,
                    if d.slots == [] then envelope else envelope.(slots := Some(GivenCounts(d, filled))),
                    false, children))
  }

  /** The shape every node of a stored flow has: each count is the number of children that
      carry the slot, every child fills a slot its parent declares, and nothing is unique. */
  ghost predicate Counted(node: Node)
    decreases node
  {
    var d := node.definition;
    && !node.unique && node.queue == d.queue && node.envelope.name == d.name && node.envelope.origin == Flow
    && node.envelope.slots == (if d.slots == [] then None else
         Some(map name | name in SlotNames(d.slots) :: CountSlot(node.children, name) as int))
    && forall i | 0 <= i < |node.children| :: ChildCounted(d, node.children[i])
  }

  ghost predicate ChildCounted(d: Definition, child: Child)
    decreases child
  {
    && child.slot in SlotNames(d.slots)
    && child.node.definition == SlotNamed(d.slots, child.slot).definition
    && Counted(child.node)
  }

  lemma {:induction false} CountSlotConcat(a: seq<Child>, b: seq<Child>, slot: string)
    ensures CountSlot(a + b, slot) == CountSlot(a, slot) + CountSlot(b, slot)
    decreases a
  {
    if a == [] {
      assert a + b == b;
    } else {
      assert (a + b)[1..] == a[1..] + b;
      CountSlotConcat(a[1..], b, slot);
    }
  }

  lemma {:induction false} CountOfOneSlot(children: seq<Child>, name: string, slot: string)
    requires forall i | 0 <= i < |children| :: children[i].slot == name
    ensures CountSlot(children, slot) == if slot == name then |children| else 0
    decreases children
  {
    if children != [] {
      CountOfOneSlot(children[1..], name, slot);
    }
  }

  lemma SlotNamedIs(slots: seq<Slot>, n: nat)
    requires n < |slots| && DistinctNames(slots)
    ensures slots[n].name in SlotNames(slots) && SlotNamed(slots, slots[n].name) == slots[n]
  {
    assert slots[n].name in SlotNames(slots);
  }

  lemma {:induction false} ManyAreCounted(slot: Slot, given: seq<Value>)
    requires IsDefined(slot.definition) && ComposeMany(slot, given).Ok?
    ensures var children := ComposeMany(slot, given).value;
            |children| == |given| && AllFill(slot, children)
    decreases slot, |given|
  {
    if given != [] {
      var (data, awaits) := ChildInput(slot, given[0]);
      ComposedIsCounted(slot.definition, data, awaits);
      ManyAreCounted(slot, given[1..]);
    }
  }

  /** The children of the slots from the n-th on, each slot as full as it was given. */
  ghost predicate CountedFrom(d: Definition, n: nat, filled: Value, children: seq<Child>) {
    && (forall i | 0 <= i < |children| :: ChildCounted(d, children[i]))
    && (forall m | 0 <= m < |d.slots| ::
          CountSlot(children, d.slots[m].name) == if m < n then 0 else |Given(d.slots[m], filled)|)
  }

  /** The children of one slot. */
  ghost predicate AllFill(slot: Slot, children: seq<Child>) {
    forall i | 0 <= i < |children| ::
      children[i].slot == slot.name && children[i].node.definition == slot.definition && Counted(children[i].node)
  }

  lemma {:induction false} SlotsAreCounted(d: Definition, n: nat, filled: Value)
    requires n <= |d.slots| && IsDefined(d) && ComposeSlots(d, n, filled).Ok?
    ensures CountedFrom(d, n, filled, ComposeSlots(d, n, filled).value)
    decreases d, 0, |d.slots| - n
  {
    if n < |d.slots| {
      var slot := d.slots[n];
      ManyAreCounted(slot, Given(slot, filled));
      SlotsAreCounted(d, n + 1, filled);
      JoinsCounted(d, n, filled, ComposeMany(slot, Given(slot, filled)).value, ComposeSlots(d, n + 1, filled).value);
    }
  }

  lemma JoinsCounted(d: Definition, n: nat, filled: Value, first: seq<Child>, rest: seq<Child>)
    requires n < |d.slots| && DistinctNames(d.slots)
    requires |first| == |Given(d.slots[n], filled)| && AllFill(d.slots[n], first) && CountedFrom(d, n + 1, filled, rest)
    ensures CountedFrom(d, n, filled, first + rest)
  {
    FirstAreCounted(d, n, first);
    OneSlotMore(d, n, filled, first, rest);
  }

  lemma FirstAreCounted(d: Definition, n: nat, first: seq<Child>)
    requires n < |d.slots| && DistinctNames(d.slots)
    requires AllFill(d.slots[n], first)
    ensures forall i | 0 <= i < |first| :: ChildCounted(d, first[i])
  {
    SlotNamedIs(d.slots, n);
  }

  lemma OneSlotMore(d: Definition, n: nat, filled: Value, first: seq<Child>, rest: seq<Child>)
    requires n < |d.slots| && DistinctNames(d.slots)
    requires |first| == |Given(d.slots[n], filled)|
    requires forall i | 0 <= i < |first| :: first[i].slot == d.slots[n].name
    requires forall m | 0 <= m < |d.slots| ::
               CountSlot(rest, d.slots[m].name) == if m < n + 1 then 0 else |Given(d.slots[m], filled)|
    ensures forall m | 0 <= m < |d.slots| ::
              CountSlot(first + rest, d.slots[m].name) == if m < n then 0 else |Given(d.slots[m], filled)|
  {
    forall m | 0 <= m < |d.slots|
      ensures CountSlot(first + rest, d.slots[m].name) == if m < n then 0 else |Given(d.slots[m], filled)|
    {
      CountSlotConcat(first, rest, d.slots[m].name);
      CountOfOneSlot(first, d.slots[n].name, d.slots[m].name);
    }
  }

  /** Every tree `composeFlow` returns is counted at every depth, and the count of each slot is
      how many values the caller filled that slot with: one, or the length of the array. */
  lemma {:induction false} ComposedIsCounted(d: Definition, data: Value, awaits: Value)
    requires IsDefined(d) && Compose(d, data, awaits).Ok?
    ensures var node := Compose(d, data, awaits).value;
            && node.definition == d && Counted(node)
            && (d.slots != [] ==> awaits.Obj?)
            && forall m | 0 <= m < |d.slots| ::
                 var given := Field(awaits, d.slots[m].name);
                 (if d.slots[m].many then given.Arr? && CountSlot(node.children, d.slots[m].name) == |given.items|
                  else !given.Undefined? && !given.Arr? && CountSlot(node.children, d.slots[m].name) == 1)
    decreases d, 1
  {
    var filled := AssertAwaitsInput(d, awaits).value;
    SlotsAreCounted(d, 0, filled);
    var children := ComposeSlots(d, 0, filled).value;
    CountsAreTheGiven(d, filled, children);
    assert Compose(d, data, awaits).value.children == children;
  }

  lemma CountsAreTheGiven(d: Definition, filled: Value, children: seq<Child>)
    requires DistinctNames(d.slots)
    requires forall m | 0 <= m < |d.slots| :: CountSlot(children, d.slots[m].name) == |Given(d.slots[m], filled)|
    ensures GivenCounts(d, filled) == map name | name in SlotNames(d.slots) :: CountSlot(children, name) as int
  {
    forall name | name in SlotNames(d.slots)
      ensures |Given(SlotNamed(d.slots, name), filled)| == CountSlot(children, name)
    {
      var m :| 0 <= m < |d.slots| && d.slots[m].name == name;
      SlotNamedIs(d.slots, m);
    }
  }

  // ---------------------------------------------------------------- what every job carries

  /** A node carries its payload, under its definition's version, and each child what the value at its place
      stands for: the i-th child of a slot that holds many the i-th item, the child of any other the value. */
  ghost predicate Carries(node: Node, data: Value, awaits: Value)
    decreases node, 0
  {
    && node.envelope.data == data && node.envelope.v == node.definition.version as real
    && forall i | 0 <= i < |node.children| ::
         CarriesAt(node.definition.slots, node.children[i], CountSlot(node.children[..i], node.children[i].slot),
                   awaits)
  }

  /** A child that comes after `nth` others of its slot. */
  ghost predicate CarriesAt(slots: seq<Slot>, child: Child, nth: nat, awaits: Value)
    decreases child
  {
    forall m | 0 <= m < |slots| && slots[m].name == child.slot ::
      if slots[m].many
      then awaits.Obj? && child.slot in awaits.fields && awaits.fields[child.slot].Arr?
           && nth < |awaits.fields[child.slot].items| && CarriesGiven(child.node, awaits.fields[child.slot].items[nth])
      else nth == 0 && awaits.Obj? && child.slot in awaits.fields && CarriesGiven(child.node, awaits.fields[child.slot])
  }

  /** A leaf carries the value itself; a parent carries its `data`, and its own children are filled from its
      `awaits`. */
  ghost predicate CarriesGiven(node: Node, given: Value)
    decreases node, 1
  {
    if node.definition.slots == [] then Carries(node, given, Undefined)
    else given.Obj? && "awaits" in given.fields
         && Carries(node, if "data" in given.fields then given.fields["data"] else Undefined, given.fields["awaits"])
  }

  lemma {:induction false} ManyCarry(slot: Slot, given: seq<Value>)
    requires IsDefined(slot.definition) && ComposeMany(slot, given).Ok?
    ensures |ComposeMany(slot, given).value| == |given|
    ensures forall i | 0 <= i < |given| ::
              ComposeMany(slot, given).value[i].slot == slot.name
                  && CarriesGiven(ComposeMany(slot, given).value[i].node, given[i])
    decreases slot, |given|
  {
    if given != [] {
      OneCarries(slot, given[0]);
      ManyCarry(slot, given[1..]);
      var children := ComposeMany(slot, given).value;
      forall i | 0 <= i < |given| ensures children[i].slot == slot.name && CarriesGiven(children[i].node, given[i]) {
        if i > 0 { assert children[i] == ComposeMany(slot, given[1..]).value[i - 1] && given[i] == given[1..][i - 1]; }
      }
    }
  }

  lemma {:induction false} OneCarries(slot: Slot, given: Value)
    requires IsDefined(slot.definition)
    requires Compose(slot.definition, ChildInput(slot, given).0, ChildInput(slot, given).1).Ok?
    ensures CarriesGiven(Compose(slot.definition, ChildInput(slot, given).0, ChildInput(slot, given).1).value, given)
    decreases slot, 0, 0
  {
    ComposedCarries(slot.definition, ChildInput(slot, given).0, ChildInput(slot, given).1);
  }

  /** The children composed for the slots from the n-th on. */
  ghost predicate CarriesFrom(d: Definition, n: nat, filled: Value, children: seq<Child>) {
    && (forall i | 0 <= i < |children| :: exists m | n <= m < |d.slots| :: d.slots[m].name == children[i].slot)
    && (forall i | 0 <= i < |children| :: CarriesAt(d.slots, children[i], CountSlot(children[..i], children[i].slot),
                                                    filled))
  }

  lemma {:induction false} SlotsCarry(d: Definition, n: nat, filled: Value)
    requires n <= |d.slots| && IsDefined(d) && filled.Obj? && ComposeSlots(d, n, filled).Ok?
    requires forall m | 0 <= m < |d.slots| :: d.slots[m].many == Field(filled, d.slots[m].name).Arr?
                                             && !Field(filled, d.slots[m].name).Undefined?
    ensures CarriesFrom(d, n, filled, ComposeSlots(d, n, filled).value)
    decreases d, 0, |d.slots| - n
  {
    if n < |d.slots| {
      var slot := d.slots[n];
      ManyCarry(slot, Given(slot, filled));
      SlotsCarry(d, n + 1, filled);
      JoinsCarry(d, n, filled, ComposeMany(slot, Given(slot, filled)).value, ComposeSlots(d, n + 1, filled).value);
    }
  }

  lemma JoinsCarry(d: Definition, n: nat, filled: Value, first: seq<Child>, rest: seq<Child>)
    requires n < |d.slots| && DistinctNames(d.slots) && filled.Obj?
    requires d.slots[n].many == Field(filled, d.slots[n].name).Arr? && !Field(filled, d.slots[n].name).Undefined?
    requires |first| == |Given(d.slots[n], filled)| && CarriesFrom(d, n + 1, filled, rest)
    requires forall i | 0 <= i < |first| ::
               first[i].slot == d.slots[n].name && CarriesGiven(first[i].node, Given(d.slots[n], filled)[i])
    ensures CarriesFrom(d, n, filled, first + rest)
  {
    var all := first + rest;
    forall i | 0 <= i < |all|
      ensures exists m | n <= m < |d.slots| :: d.slots[m].name == all[i].slot
      ensures CarriesAt(d.slots, all[i], CountSlot(all[..i], all[i].slot), filled)
    {
      if i < |first| {
        assert all[..i] == first[..i];
        CountOfOneSlot(first[..i], d.slots[n].name, d.slots[n].name);
        FirstCarries(d, n, filled, first[i], i);
      } else {
        var j := i - |first|;
        assert all[..i] == first + rest[..j] && all[i] == rest[j];
        var m :| n + 1 <= m < |d.slots| && d.slots[m].name == rest[j].slot;
        CountSlotConcat(first, rest[..j], rest[j].slot);
        CountOfOneSlot(first, d.slots[n].name, rest[j].slot);
      }
    }
  }

  lemma FirstCarries(d: Definition, n: nat, filled: Value, child: Child, nth: nat)
    requires n < |d.slots| && DistinctNames(d.slots) && filled.Obj? && child.slot == d.slots[n].name
    requires d.slots[n].many == Field(filled, d.slots[n].name).Arr? && !Field(filled, d.slots[n].name).Undefined?
    requires nth < |Given(d.slots[n], filled)| && CarriesGiven(child.node, Given(d.slots[n], filled)[nth])
    ensures CarriesAt(d.slots, child, nth, filled)
  {
    forall m | 0 <= m < |d.slots| && d.slots[m].name == child.slot ensures m == n {}
  }

  /** At every depth, a tree that is built carries what the caller passed at each place. */
  lemma {:induction false} ComposedCarries(d: Definition, data: Value, awaits: Value)
    requires IsDefined(d) && Compose(d, data, awaits).Ok?
    ensures Carries(Compose(d, data, awaits).value, data, awaits)
    ensures d.slots != [] ==> awaits.Obj?
    decreases d, 1
  {
    if d.slots != [] {
      SlotsCarry(d, 0, awaits);
    }
  }

  // ---------------------------------------------------------------- what is refused

  /** Why an input is refused before anything is composed: nothing where slots wait, then a slot left out, then
      the first slot filled in the wrong arity. */
  lemma RefusedInputSaysWhy(d: Definition, awaits: Value, n: nat)
    ensures AssertAwaitsInput(d, awaits) == Refused(NothingPassed) <==> d.slots != [] && !awaits.Obj?
    ensures AssertAwaitsInput(d, awaits) == Refused(MissingSlot) <==>
            awaits.Obj? && exists i | 0 <= i < |d.slots| :: Field(awaits, d.slots[i].name).Undefined?
    ensures awaits.Obj? && n < |d.slots| && d.slots[n].many != Field(awaits, d.slots[n].name).Arr?
            && (forall i | 0 <= i < n :: d.slots[i].many == Field(awaits, d.slots[i].name).Arr?)
            && (forall i | 0 <= i < |d.slots| :: !Field(awaits, d.slots[i].name).Undefined?) ==>
              AssertAwaitsInput(d, awaits) == Refused(WrongArity(d.slots[n].name))
  {
    if n < |d.slots| && d.slots[n].many != Field(awaits, d.slots[n].name).Arr?
       && forall i | 0 <= i < n :: d.slots[i].many == Field(awaits, d.slots[i].name).Arr? {
      FirstStray(d.slots, awaits, n);
    }
  }

  lemma {:induction false} FirstStray(slots: seq<Slot>, awaits: Value, n: nat)
    requires n < |slots| && slots[n].many != Field(awaits, slots[n].name).Arr?
    requires forall i | 0 <= i < n :: slots[i].many == Field(awaits, slots[i].name).Arr?
    ensures CheckArity(slots, awaits) == Refused(WrongArity(slots[n].name))
    decreases n
  {
    if n > 0 { FirstStray(slots[1..], awaits, n - 1); }
  }

  /** And past that, the root itself is stopped by its schema, or for being unique. */
  lemma RefusedRootSaysWhy(d: Definition, data: Value, awaits: Value)
    requires AssertAwaitsInput(d, awaits).Ok?
    ensures d.payload(data).None? ==> Compose(d, data, awaits) == Refused(PayloadRefused)
    ensures d.payload(data).Some? && d.unique(d.payload(data).value) ==>
              Compose(d, data, awaits) == Refused(UniqueInFlow)
  {
  }

  /** An input a flow may be built from: every payload passes, nothing resolves to a uniqueness
      key, and every slot at every depth is filled in the arity its definition declares. */
  ghost predicate Fits(d: Definition, data: Value, awaits: Value)
    decreases d
  {
    && d.payload(data).Some? && !d.unique(d.payload(data).value)
    && (d.slots != [] ==> awaits.Obj?)
    && forall m | 0 <= m < |d.slots| :: SlotFits(d.slots[m], Field(awaits, d.slots[m].name))
  }

  ghost predicate SlotFits(slot: Slot, given: Value)
    decreases slot
  {
    if slot.many then given.Arr? && forall i | 0 <= i < |given.items| :: OneFits(slot, given.items[i])
    else !given.Undefined? && !given.Arr? && OneFits(slot, given)
  }

  ghost predicate OneFits(slot: Slot, given: Value)
    decreases slot, 0
  {
    Fits(slot.definition, ChildInput(slot, given).0, ChildInput(slot, given).1)
  }

  lemma {:induction false} ManyAccepted(slot: Slot, given: seq<Value>)
    ensures ComposeMany(slot, given).Ok? <==> forall i | 0 <= i < |given| :: OneFits(slot, given[i])
    decreases slot, |given|
  {
    if given != [] {
      AcceptedIffFits(slot.definition, ChildInput(slot, given[0]).0, ChildInput(slot, given[0]).1);
      ManyAccepted(slot, given[1..]);
      assert forall i | 1 <= i < |given| :: given[i] == given[1..][i - 1];
    }
  }

  lemma OneSlotAccepted(slot: Slot, filled: Value)
    requires slot.many == Field(filled, slot.name).Arr? && !Field(filled, slot.name).Undefined?
    ensures ComposeMany(slot, Given(slot, filled)).Ok? <==> SlotFits(slot, Field(filled, slot.name))
    decreases slot
  {
    var given := Field(filled, slot.name);
    ManyAccepted(slot, Given(slot, filled));
    if !slot.many {
      assert Given(slot, filled)[0] == given;
    }
  }

  lemma {:induction false} SlotsAccepted(d: Definition, n: nat, filled: Value)
    requires n <= |d.slots|
    requires forall m | 0 <= m < |d.slots| :: d.slots[m].many == Field(filled, d.slots[m].name).Arr?
                                             && !Field(filled, d.slots[m].name).Undefined?
    ensures ComposeSlots(d, n, filled).Ok? <==>
            forall m | n <= m < |d.slots| :: SlotFits(d.slots[m], Field(filled, d.slots[m].name))
    decreases d, 0, |d.slots| - n
  {
    if n < |d.slots| {
      OneSlotAccepted(d.slots[n], filled);
      SlotsAccepted(d, n + 1, filled);
    }
  }

  lemma RefusedDoesNotFit(d: Definition, data: Value, awaits: Value)
    requires AssertAwaitsInput(d, awaits).Refused?
    ensures !Fits(d, data, awaits)
  {
    if awaits.Obj? {
      var m :| 0 <= m < |d.slots|
               && (var given := Field(awaits, d.slots[m].name); given.Undefined? || d.slots[m].many != given.Arr?);
      assert !SlotFits(d.slots[m], Field(awaits, d.slots[m].name));
    }
  }

  /** `composeFlow` builds a tree exactly for the inputs that fit, and refuses every other with
      nothing enqueued. */
  lemma {:induction false} AcceptedIffFits(d: Definition, data: Value, awaits: Value)
    ensures Compose(d, data, awaits).Ok? <==> Fits(d, data, awaits)
    decreases d, 1
  {
    var input := AssertAwaitsInput(d, awaits);
    if input.Ok? {
      SlotsAccepted(d, 0, input.value);
    } else {
      RefusedDoesNotFit(d, data, awaits);
    }
  }

  // ---------------------------------------------------------------- the counts add up

  function SumOver(children: seq<Child>, names: seq<string>): nat {
    if names == [] then 0 else CountSlot(children, names[0]) + SumOver(children, names[1..])
  }

  predicate Distinct(names: seq<string>) {
    forall i, j | 0 <= i < j < |names| :: names[i] != names[j]
  }

  lemma {:induction false} SumOverStep(child: Child, rest: seq<Child>, names: seq<string>)
    requires Distinct(names)
    ensures SumOver([child] + rest, names) == (if child.slot in names then 1 else 0) + SumOver(rest, names)
    decreases names
  {
    if names != [] {
      SumOverStep(child, rest, names[1..]);
      assert ([child] + rest)[1..] == rest;
      assert child.slot in names <==> child.slot == names[0] || child.slot in names[1..];
      assert child.slot == names[0] ==> child.slot !in names[1..];
    }
  }

  lemma {:induction false} SumOverNothing(names: seq<string>)
    ensures SumOver([], names) == 0
  {
    if names != [] { SumOverNothing(names[1..]); }
  }

  lemma {:induction false} SumOverAll(children: seq<Child>, names: seq<string>)
    requires Distinct(names) && forall i | 0 <= i < |children| :: children[i].slot in names
    ensures SumOver(children, names) == |children|
    decreases children
  {
    if children == [] {
      SumOverNothing(names);
    } else {
      SumOverAll(children[1..], names);
      assert [children[0]] + children[1..] == children;
      SumOverStep(children[0], children[1..], names);
    }
  }

  /** At every node the slot counts sum to the number of children. */
  lemma CountsSumToTheChildren(node: Node)
    requires IsDefined(node.definition) && Counted(node)
    ensures var d := node.definition;
            SumOver(node.children, seq(|d.slots|, i requires 0 <= i < |d.slots| => d.slots[i].name)) == |node.children|
  {
    var d := node.definition;
    var names := seq(|d.slots|, i requires 0 <= i < |d.slots| => d.slots[i].name);
    forall i | 0 <= i < |node.children| ensures node.children[i].slot in names {
      assert ChildCounted(d, node.children[i]);
      var m :| 0 <= m < |d.slots| && d.slots[m].name == node.children[i].slot;
      assert names[m] == d.slots[m].name;
    }
    SumOverAll(node.children, names);
  }
}
