/** A stored flow over time: children complete, fail, are retried and are removed in any order,
    and parents are delivered at any moment. */
module FlowRun {
  import opened Definition
  import opened Flow
  import opened FlowRead

  /** A job of the flow, by the way down from the root. */
  type Path = seq<nat>

  predicate IsPath(root: Node, p: Path)
    decreases p
  {
    p == [] || (p[0] < |root.children| && IsPath(root.children[p[0]].node, p[1..]))
  }

  function At(root: Node, p: Path): Node
    requires IsPath(root, p)
    decreases p
  {
    if p == [] then root else At(root.children[p[0]].node, p[1..])
  }

  lemma {:induction false} OneDown(root: Node, p: Path, i: nat)
    ensures IsPath(root, p + [i]) <==> IsPath(root, p) && i < |At(root, p).children|
    ensures IsPath(root, p + [i]) ==> At(root, p + [i]) == At(root, p).children[i].node
    decreases p
  {
    if p == [] {
      assert (p + [i])[1..] == [];
    } else {
      assert (p + [i])[1..] == p[1..] + [i];
      if p[0] < |root.children| {
        OneDown(root.children[p[0]].node, p[1..], i);
      }
    }
  }

  lemma {:induction false} CountedAt(root: Node, p: Path)
    requires IsPath(root, p) && IsDefined(root.definition) && Counted(root)
    ensures IsDefined(At(root, p).definition) && Counted(At(root, p))
    decreases p
  {
    if p != [] {
      assert ChildCounted(root.definition, root.children[p[0]]);
      CountedAt(root.children[p[0]].node, p[1..]);
    }
  }

  /** `status` is what a parent's entries say of a child, in flight until they say otherwise;
      `began` the jobs that got past the refusals before their handler; `settled` those that left a result,
      of their handler or kept under their key. */
  datatype Run = Run(status: map<Path, Status>, began: set<Path>, settled: set<Path>)

  const FRESH := Run(map[], {}, {})

  datatype Action =
    | Deliver(path: Path, read: FlowState)
    | Return(path: Path, value: Value)
    | FailForGood(path: Path, reason: string)
    | Retry(path: Path)
    | Remove(path: Path)

  function StatusOf(s: Run, p: Path): Status {
    if p in s.status then s.status[p] else InFlight
  }

  function ChildStatuses(root: Node, s: Run, p: Path): seq<Status>
    requires IsPath(root, p)
  {
    seq(|At(root, p).children|, i requires 0 <= i < |At(root, p).children| => StatusOf(s, p + [i]))
  }

  predicate Enabled(root: Node, s: Run, a: Action) {
    IsPath(root, a.path) &&
    match a
    case Deliver(p, read) => Reflects(At(root, p).children, ChildStatuses(root, s, p), read)
    case Return(p, _) => p in s.began && StatusOf(s, p).InFlight?
    case FailForGood(p, _) => StatusOf(s, p).InFlight?
    case Retry(p) => StatusOf(s, p).FailedFor?
    case Remove(p) => p != []
  }

  function Do(root: Node, s: Run, a: Action): Run {
    if !Enabled(root, s, a) then s
    else match a
      case Deliver(p, read) =>
        var node := At(root, p);
        if ChildrenFor(node.definition, node.envelope.slots, read).Ok? then s.(began := s.began + {p}) else s
      case Return(p, v) => s.(status := s.status[p := Processed(v)], settled := s.settled + {p})
      case FailForGood(p, reason) => s.(status := s.status[p := FailedFor(reason)])
      case Retry(p) => s.(status := s.status[p := InFlight])
      case Remove(p) => s.(status := s.status[p := Gone])
  }

  function Exec(root: Node, s: Run, actions: seq<Action>): Run
    decreases actions
  {
    if actions == [] then s else Exec(root, Do(root, s, actions[0]), actions[1..])
  }

  predicate Inv(root: Node, s: Run) {
    && (forall p | p in s.began ::
          IsPath(root, p) && forall i | 0 <= i < |At(root, p).children| :: p + [i] in s.settled)
    && s.settled <= s.began
    && (forall p | p in s.status && s.status[p].Processed? :: p in s.settled)
  }

  lemma DeliveryKeepsInv(root: Node, s: Run, p: Path, read: FlowState)
    requires IsDefined(root.definition) && Counted(root) && Inv(root, s)
    ensures Inv(root, Do(root, s, Deliver(p, read)))
  {
    if Do(root, s, Deliver(p, read)) != s {
      ChildrenHaveSettled(root, s, p, read);
    }
  }

  lemma ChildrenHaveSettled(root: Node, s: Run, p: Path, read: FlowState)
    requires IsDefined(root.definition) && Counted(root) && Enabled(root, s, Deliver(p, read))
    requires forall q | q in s.status && s.status[q].Processed? :: q in s.settled
    requires ChildrenFor(At(root, p).definition, At(root, p).envelope.slots, read).Ok?
    ensures forall i | 0 <= i < |At(root, p).children| :: p + [i] in s.settled
  {
    CountedAt(root, p);
    HandlerReachedIffEveryChildHasAResult(At(root, p), ChildStatuses(root, s, p), read);
    ProcessedHaveSettled(root, s, p);
  }

  lemma ProcessedHaveSettled(root: Node, s: Run, p: Path)
    requires IsPath(root, p)
    requires forall q | q in s.status && s.status[q].Processed? :: q in s.settled
    requires forall i | 0 <= i < |ChildStatuses(root, s, p)| :: ChildStatuses(root, s, p)[i].Processed?
    ensures forall i | 0 <= i < |At(root, p).children| :: p + [i] in s.settled
  {
    forall i | 0 <= i < |At(root, p).children| ensures p + [i] in s.settled {
      assert ChildStatuses(root, s, p)[i] == StatusOf(s, p + [i]);
    }
  }

  /** A delivery gets past the refusals when every child holds a result its slot's schema accepts. */
  lemma DeliveryBegins(root: Node, s: Run, p: Path, read: FlowState)
    requires IsDefined(root.definition) && Counted(root) && Enabled(root, s, Deliver(p, read))
    requires forall i | 0 <= i < |At(root, p).children| :: StatusOf(s, p + [i]).Processed?
    requires AllAccepted(At(root, p).definition.slots, read)
    ensures p in Do(root, s, Deliver(p, read)).began
  {
    var node, sts := At(root, p), ChildStatuses(root, s, p);
    CountedAt(root, p);
    assert forall i | 0 <= i < |sts| :: sts[i] == StatusOf(s, p + [i]);
    HandlerReachedIffEveryChildHasAResult(node, sts, read);
    if node.definition.slots != [] { AcceptedIsGiven(node.definition.slots, read); }
  }

  /** A parent whose other children hold results is delivered after the last one failed, or was removed, or
      failed and was retried: the first finds a dead child, the second is short, the third waits. */
  lemma OneChildShort(root: Node, s: Run, p: Path, i: nat, reason: string, read: FlowState)
    requires IsDefined(root.definition) && Counted(root) && IsPath(root, p) && i < |At(root, p).children|
    requires forall k | 0 <= k < |At(root, p).children| && k != i :: StatusOf(s, p + [k]).Processed?
    ensures var node, s' := At(root, p), Do(root, s, FailForGood(p + [i], reason));
            StatusOf(s, p + [i]).InFlight? && Enabled(root, s', Deliver(p, read)) ==>
              ChildrenFor(node.definition, node.envelope.slots, read) == Refused(Dead(read.results))
    ensures var node, s' := At(root, p), Do(root, s, Remove(p + [i]));
            Enabled(root, s', Deliver(p, read)) ==>
              ChildrenFor(node.definition, node.envelope.slots, read) == Refused(Short)
    ensures var node, s' := At(root, p), Do(root, s, Retry(p + [i]));
            StatusOf(s, p + [i]).FailedFor? && Enabled(root, s', Deliver(p, read)) ==>
              ChildrenFor(node.definition, node.envelope.slots, read) == Refused(Pending)
  {
    OneDown(root, p, i);
    CountedAt(root, p);
    OnlyItsOwnStatus(root, s, FailForGood(p + [i], reason));
    OnlyItsOwnStatus(root, s, Remove(p + [i]));
    OnlyItsOwnStatus(root, s, Retry(p + [i]));
    OneStandsOut(root, s, Do(root, s, FailForGood(p + [i], reason)), p, i, read);
    OneStandsOut(root, s, Do(root, s, Remove(p + [i])), p, i, read);
    OneStandsOut(root, s, Do(root, s, Retry(p + [i])), p, i, read);
  }

  lemma OnlyItsOwnStatus(root: Node, s: Run, a: Action)
    requires a.FailForGood? || a.Remove? || a.Retry?
    ensures forall q | q != a.path :: StatusOf(Do(root, s, a), q) == StatusOf(s, q)
    ensures Enabled(root, s, a) ==>
              match a
              case FailForGood(p, reason) => StatusOf(Do(root, s, a), p) == FailedFor(reason)
              case Remove(p) => StatusOf(Do(root, s, a), p) == Gone
              case Retry(p) => StatusOf(Do(root, s, a), p) == InFlight
              case _ => true
  {
  }

  lemma OneStandsOut(root: Node, s: Run, s': Run, p: Path, i: nat, read: FlowState)
    requires IsDefined(root.definition) && Counted(root) && IsPath(root, p) && i < |At(root, p).children|
    requires forall k | 0 <= k < |At(root, p).children| && k != i :: StatusOf(s, p + [k]).Processed?
    requires forall q | q != p + [i] :: StatusOf(s', q) == StatusOf(s, q)
    ensures Enabled(root, s', Deliver(p, read)) ==>
              var node := At(root, p);
              var r := ChildrenFor(node.definition, node.envelope.slots, read);
              && (StatusOf(s', p + [i]).FailedFor? ==> r == Refused(Dead(read.results)))
              && (StatusOf(s', p + [i]).Gone? ==> r == Refused(Short))
              && (StatusOf(s', p + [i]).InFlight? ==> r == Refused(Pending))
  {
    if Enabled(root, s', Deliver(p, read)) {
      var sts := ChildStatuses(root, s', p);
      CountedAt(root, p);
      RefusalNamesTheWorstChild(At(root, p), sts, read);
      assert sts[i] == StatusOf(s', p + [i]);
      forall k | 0 <= k < |sts| && k != i ensures sts[k].Processed? {
        assert (p + [k])[|p|] == k && (p + [i])[|p|] == i;
        assert sts[k] == StatusOf(s', p + [k]);
      }
    }
  }

  /** What a job that ran returns is what its parent reads, failed and retried before or not. */
  lemma ReturnsAfterARetry(root: Node, s: Run, p: Path, v: Value)
    requires IsPath(root, p) && p in s.began && !StatusOf(s, p).Gone? && !StatusOf(s, p).Processed?
    ensures StatusOf(Do(root, Do(root, s, Retry(p)), Return(p, v)), p) == Processed(v)
  {
  }

  lemma {:induction false} EveryRunKeepsInv(root: Node, s: Run, actions: seq<Action>)
    requires IsDefined(root.definition) && Counted(root) && Inv(root, s)
    ensures Inv(root, Exec(root, s, actions))
    decreases actions
  {
    if actions != [] {
      if actions[0].Deliver? {
        DeliveryKeepsInv(root, s, actions[0].path, actions[0].read);
      }
      EveryRunKeepsInv(root, Do(root, s, actions[0]), actions[1..]);
    }
  }

  lemma {:induction false} SettledBelow(root: Node, s: Run, p: Path, down: Path)
    requires Inv(root, s) && p in s.began && IsPath(root, p + down) && down != []
    ensures p + down in s.settled
    decreases down
  {
    assert p + [down[0]] + down[1..] == p + down;
    PrefixIsPath(root, p + [down[0]], down[1..]);
    OneDown(root, p, down[0]);
    if down[1..] != [] {
      SettledBelow(root, s, p + [down[0]], down[1..]);
    } else {
      assert p + down == p + [down[0]];
    }
  }

  lemma {:induction false} PrefixIsPath(root: Node, p: Path, down: Path)
    requires IsPath(root, p + down)
    ensures IsPath(root, p)
    decreases p
  {
    if p != [] {
      assert (p + down)[1..] == p[1..] + down;
      PrefixIsPath(root.children[p[0]].node, p[1..], down);
    }
  }

  /** Over every run of a composed flow, however its jobs fail, are retried and are removed: a
      job that got past the refusals, as every job whose handler ran did, had a result from every job below
      it, at every depth. */
  lemma HandlerRunsOverASettledTree(d: Definition, data: Value, awaits: Value, actions: seq<Action>, p: Path,
                                    down: Path)
    requires IsDefined(d) && Compose(d, data, awaits).Ok?
    requires p in Exec(Compose(d, data, awaits).value, FRESH, actions).began
    requires IsPath(Compose(d, data, awaits).value, p + down) && down != []
    ensures p + down in Exec(Compose(d, data, awaits).value, FRESH, actions).settled
    ensures p + down in Exec(Compose(d, data, awaits).value, FRESH, actions).began
  {
    var root := Compose(d, data, awaits).value;
    ComposedIsCounted(d, data, awaits);
    EveryRunKeepsInv(root, FRESH, actions);
    SettledBelow(root, Exec(root, FRESH, actions), p, down);
  }
}
