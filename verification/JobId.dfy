/** The ids the library composes and cuts: job ids, the ids of flow children, the job keys
    Redis files them under, and the names of dead queues. */
module JobId {
  import opened Errors

  const COLON := ':'
  const FLOW_ID_MARKER := '~'
  const DEAD_SUFFIX := ".dead"

  // ---------------------------------------------------------------- cutting text

  /** `indexOf`: the first place a character stands at, or -1. */
  function IndexOf(s: string, c: char): (i: int)
    ensures -1 <= i < |s|
    ensures i >= 0 ==> s[i] == c && c !in s[..i]
    ensures i < 0 <==> c !in s
  {
    if s == "" then -1
    else if s[0] == c then 0
    else
      var i := IndexOf(s[1..], c);
      if i < 0 then -1 else assert s[..i + 1] == [s[0]] + s[1..][..i]; i + 1
  }

  lemma IndexOfFirst(a: string, c: char, b: string)
    requires c !in a
    ensures IndexOf(a + [c] + b, c) == |a|
  {
    var s := a + [c] + b;
    assert s[|a|] == c;
  }

  /** `split`: the pieces between one character. */
  function Split(s: string, c: char): (pieces: seq<string>)
    ensures |pieces| >= 1
  {
    if s == "" then [""]
    else if s[0] == c then [""] + Split(s[1..], c)
    else var rest := Split(s[1..], c); [[s[0]] + rest[0]] + rest[1..]
  }

  lemma {:induction false} SplitJoined(a: string, c: char, b: string)
    ensures Split(a + [c] + b, c) == Split(a, c) + Split(b, c)
    decreases a
  {
    var s := a + [c] + b;
    if a == "" {
      assert s[1..] == b;
    } else {
      assert s[1..] == a[1..] + [c] + b;
      SplitJoined(a[1..], c, b);
    }
  }

  lemma {:induction false} SplitWhole(s: string, c: char)
    requires c !in s
    ensures Split(s, c) == [s]
    decreases s
  {
    if s != "" {
      SplitWhole(s[1..], c);
      assert [s[0]] + s[1..] == s;
    }
  }

  // ---------------------------------------------------------------- job ids

  datatype NamedJob = NamedJob(queue: string, storedId: string)

  function ComposeJobId(queue: string, storedId: string): string {
    queue + [COLON] + storedId
  }

  /** `readJobId`: cut at the first colon; `None` for what is no job id. */
  function ReadJobId(id: string): Option<NamedJob> {
    var cut := IndexOf(id, COLON);
    if cut < 1 || cut == |id| - 1 then None
    else Some(NamedJob(id[..cut], id[cut + 1..]))
  }

  /** An id reads back as the pair it was composed of exactly when the queue is named and holds
      no colon, and the job is named; the stored id may hold as many colons as it likes. */
  lemma JobIdReadsBackIff(queue: string, storedId: string)
    ensures ReadJobId(ComposeJobId(queue, storedId)) == Some(NamedJob(queue, storedId))
            <==> queue != "" && COLON !in queue && storedId != ""
  {
    var id := ComposeJobId(queue, storedId);
    if COLON !in queue {
      IndexOfFirst(queue, COLON, storedId);
      assert id[..|queue|] == queue && id[|queue| + 1..] == storedId;
    } else {
      var cut := IndexOf(id, COLON);
      assert id[..cut] != queue by { assert COLON !in id[..cut]; }
    }
  }

  /** And whatever is accepted composes back to the text that was read. */
  lemma JobIdComposesBack(id: string)
    requires ReadJobId(id).Some?
    ensures var job := ReadJobId(id).value;
            ComposeJobId(job.queue, job.storedId) == id && COLON !in job.queue && job.queue != "" && job.storedId != ""
  {
    var cut := IndexOf(id, COLON);
    assert id == id[..cut] + [id[cut]] + id[cut + 1..];
  }

  /** Two jobs on queues with no colon in their names never share an id. */
  lemma JobIdsAreApart(a: NamedJob, b: NamedJob)
    requires COLON !in a.queue && COLON !in b.queue
    ensures ComposeJobId(a.queue, a.storedId) == ComposeJobId(b.queue, b.storedId) <==> a == b
  {
    var x, y := ComposeJobId(a.queue, a.storedId), ComposeJobId(b.queue, b.storedId);
    IndexOfFirst(a.queue, COLON, a.storedId);
    IndexOfFirst(b.queue, COLON, b.storedId);
    if x == y {
      assert x[..|a.queue|] == a.queue && y[..|b.queue|] == b.queue;
      assert x[|a.queue| + 1..] == a.storedId && y[|b.queue| + 1..] == b.storedId;
    }
  }

  // ---------------------------------------------------------------- dead queues

  function DeadQueueName(queue: string): string {
    queue + DEAD_SUFFIX
  }

  function LiveQueueName(dead: string): Option<string> {
    var n := |DEAD_SUFFIX|;
    if |dead| <= n || dead[|dead| - n..] != DEAD_SUFFIX then None else Some(dead[..|dead| - n])
  }

  /** A queue is a dead one exactly when its name is that of some live queue with the suffix, and then it is that
      queue's. */
  lemma LiveQueueNameIff(dead: string, live: string)
    ensures LiveQueueName(dead) == Some(live) <==> live != "" && dead == live + ".dead"
  {
    if dead == live + ".dead" {
      assert dead[|live|..] == ".dead" && dead[..|live|] == live;
    }
    if LiveQueueName(dead) == Some(live) {
      assert dead == dead[..|dead| - 5] + dead[|dead| - 5..];
    }
  }

  /** The id `dead.list` hands out, cut back into the live queue and the record. */
  function ReadDeadJobId(id: string): Option<NamedJob> {
    match ReadJobId(id)
    case None => None
    case Some(job) =>
      match LiveQueueName(job.queue)
      case None => None
      case Some(live) => Some(NamedJob(live, job.storedId))
  }

  /** The reading `get`, `retry` and `cancel` share: an id on a dead queue is none of theirs. */
  function ReadLiveJobId(id: string): Option<NamedJob> {
    match ReadJobId(id)
    case None => None
    case Some(job) => if LiveQueueName(job.queue).Some? then None else Some(job)
  }

  lemma DeadJobIdReadsBack(queue: string, storedId: string)
    requires queue != "" && COLON !in queue && storedId != ""
    ensures ReadDeadJobId(ComposeJobId(DeadQueueName(queue), storedId)) == Some(NamedJob(queue, storedId))
    ensures ReadLiveJobId(ComposeJobId(DeadQueueName(queue), storedId)) == None
  {
    JobIdReadsBackIff(DeadQueueName(queue), storedId);
    assert DeadQueueName(queue)[|queue|..] == DEAD_SUFFIX && DeadQueueName(queue)[..|queue|] == queue;
  }

  /** No id is read both as a live job and as a dead record. */
  lemma LiveOrDead(id: string)
    ensures !(ReadLiveJobId(id).Some? && ReadDeadJobId(id).Some?)
    ensures ReadJobId(id).Some? ==> ReadLiveJobId(id).Some? || ReadDeadJobId(id).Some?
  {
  }

  // ---------------------------------------------------------------- flow children

  /** `unique` is the random half of the id, a UUID: hex digits and hyphens. */
  function ComposeChildId(slot: string, unique: string): string {
    slot + [FLOW_ID_MARKER] + unique
  }

  function ReadChildSlot(storedId: string): string {
    var cut := IndexOf(storedId, FLOW_ID_MARKER);
    if cut < 1 then "" else storedId[..cut]
  }

  lemma ChildSlotReadsBackIff(slot: string, unique: string)
    ensures ReadChildSlot(ComposeChildId(slot, unique)) == slot <==> FLOW_ID_MARKER !in slot
  {
    var id := ComposeChildId(slot, unique);
    if FLOW_ID_MARKER !in slot {
      IndexOfFirst(slot, FLOW_ID_MARKER, unique);
      assert id[..|slot|] == slot;
    } else {
      var cut := IndexOf(id, FLOW_ID_MARKER);
      assert FLOW_ID_MARKER !in id[..cut];
    }
  }

  /** The key Redis files a job under. */
  function JobKey(prefix: string, queue: string, storedId: string): string {
    prefix + [COLON] + (queue + [COLON] + storedId)
  }

  /** `readChildKey`: the last two segments of a job key. */
  function ReadChildKey(key: string): NamedJob {
    var segments := Split(key, COLON);
    NamedJob(if |segments| >= 2 then segments[|segments| - 2] else "", segments[|segments| - 1])
  }

  /** Whatever the prefix, colons included, a job key reads back as its queue and its id. */
  lemma ChildKeyReadsBack(prefix: string, queue: string, storedId: string)
    requires COLON !in queue && COLON !in storedId
    ensures ReadChildKey(JobKey(prefix, queue, storedId)) == NamedJob(queue, storedId)
  {
    SplitJoined(prefix, COLON, queue + [COLON] + storedId);
    SplitJoined(queue, COLON, storedId);
    SplitWhole(queue, COLON);
    SplitWhole(storedId, COLON);
  }

  predicate IsUniqueHalf(unique: string) {
    COLON !in unique && FLOW_ID_MARKER !in unique
  }

  /** A slot a definition may declare: `defineJob` refuses the two characters in its name. */
  predicate IsSlotName(slot: string) {
    COLON !in slot && FLOW_ID_MARKER !in slot
  }

  lemma SlotReadsBackFromJobKey(prefix: string, queue: string, slot: string, unique: string)
    requires COLON !in queue && IsSlotName(slot) && IsUniqueHalf(unique)
    ensures ReadChildSlot(ReadChildKey(JobKey(prefix, queue, ComposeChildId(slot, unique))).storedId) == slot
  {
    ChildSlotReadsBackIff(slot, unique);
    ChildKeyReadsBack(prefix, queue, ComposeChildId(slot, unique));
  }

  /** The texts in use. */
  lemma IdsByTheirText(queue: string, id: string, slot: string, unique: string, prefix: string)
    ensures ComposeJobId(queue, id) == queue + ":" + id && ComposeChildId(slot, unique) == slot + "~" + unique
    ensures DeadQueueName(queue) == queue + ".dead" && JobKey(prefix, queue, id) == prefix + ":" + queue + ":" + id
  {
    assert prefix + ":" + (queue + ":" + id) == prefix + ":" + queue + ":" + id;
  }

  // ---------------------------------------------------------------- numbers in ids

  /** The numeral after a numeral: the last digit goes up, or turns over and carries. */
  function Increment(s: string): (next: string)
    ensures next != ""
  {
    if s == "" then "1"
    else
      var last := s[|s| - 1];
      if last < '9' then s[..|s| - 1] + [last + 1 as char] else Increment(s[..|s| - 1]) + "0"
  }

  /** `String(n)` of a whole number, counted up from zero. */
  function Decimal(n: nat): (s: string)
    ensures s != ""
  {
    if n == 0 then "0" else Increment(Decimal(n - 1))
  }

  predicate IsNumeral(s: string) {
    forall i | 0 <= i < |s| :: '0' <= s[i] <= '9'
  }

  /** What a numeral reads as. */
  function NumeralValue(s: string): nat
    requires IsNumeral(s)
  {
    if s == "" then 0 else 10 * NumeralValue(s[..|s| - 1]) + (s[|s| - 1] - '0') as nat
  }

  lemma DigitAppended(init: string, digit: char)
    requires IsNumeral(init) && '0' <= digit <= '9'
    ensures IsNumeral(init + [digit]) && NumeralValue(init + [digit]) == 10 * NumeralValue(init) + (digit - '0') as nat
  {
    assert (init + [digit])[..|init|] == init;
  }

  lemma {:induction false} IncrementAddsOne(s: string)
    requires IsNumeral(s)
    ensures IsNumeral(Increment(s)) && NumeralValue(Increment(s)) == NumeralValue(s) + 1
    decreases s
  {
    if s != "" {
      var init, last := s[..|s| - 1], s[|s| - 1];
      if last < '9' {
        DigitAppended(init, last + 1 as char);
      } else {
        IncrementAddsOne(init);
        DigitAppended(Increment(init), '0');
      }
    }
  }

  lemma {:induction false} DecimalReadsBack(n: nat)
    ensures IsNumeral(Decimal(n)) && NumeralValue(Decimal(n)) == n
  {
    if n > 0 {
      DecimalReadsBack(n - 1);
      IncrementAddsOne(Decimal(n - 1));
    } else {
      assert Decimal(0)[..0] == "";
    }
  }

  lemma DecimalsAreApart(n: nat, m: nat)
    ensures Decimal(n) == Decimal(m) <==> n == m
  {
    DecimalReadsBack(n);
    DecimalReadsBack(m);
  }

  /** The number an id is the text of, if it is that of one. */
  function NumberOf(id: string): Option<nat> {
    if IsNumeral(id) && Decimal(NumeralValue(id)) == id then Some(NumeralValue(id)) else None
  }

  lemma NumberOfDecimal(n: nat)
    ensures NumberOf(Decimal(n)) == Some(n)
  {
    DecimalReadsBack(n);
  }

  /** There is always another number. */
  lemma AnotherNumber(taken: set<nat>) returns (n: nat)
    ensures n !in taken
  {
    var left := taken;
    n := 0;
    while left != {}
      invariant left <= taken && forall m | m in taken :: m in left || m < n
      decreases left
    {
      var m :| m in left;
      if m >= n { n := m + 1; }
      left := left - {m};
    }
  }
}
