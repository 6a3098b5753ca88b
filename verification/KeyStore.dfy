/** The idempotency store: three states per key, five commands, and the two stores that keep
    them, one over Redis strings and one over two in-memory maps. */
module KeyStore {
  import opened Errors

  type Key = string
  type Token = string

  const RUNNING_PREFIX := "running:"
  const KEPT_OPEN := "{\"result\":"
  const KEPT_CLOSE := "}"
  const NOTHING_KEPT := "{}"
  const MAX_RESULT_BYTES := 64 * 1024
  const LEASE_MS := 30_000
  const RETENTION_MS := 24 * 60 * 60 * 1_000

  /** What a complete key keeps: the JSON text of the result, or the marker alone. */
  datatype Kept = Marker | WithResult(text: string)

  /** A key that is absent is not in the store. */
  datatype KeyState = Held(token: Token) | Complete(kept: Kept)
  type Store = map<Key, KeyState>

  datatype Lease = Acquired(token: Token) | HeldByAnother | AlreadyComplete(kept: Kept)
  datatype ForgetOutcome = Forgotten | NotFound | RefusedRunning

  datatype Command =
    | Acquire(key: Key, token: Token)
    | Renew(key: Key, token: Token)
    | Finish(key: Key, token: Token, kept: Kept)
    | Release(key: Key, token: Token)
    | Forget(key: Key)

  datatype Reply = LeaseReply(lease: Lease) | ForgetReply(outcome: ForgetOutcome) | NoReply

  predicate Holds(s: Store, k: Key, t: Token) {
    k in s && s[k] == Held(t)
  }

  predicate IsComplete(s: Store, k: Key) {
    k in s && s[k].Complete?
  }

  // ---------------------------------------------------------------- the five commands

  function After(s: Store, c: Command): Store {
    match c
    case Acquire(k, t) => if k in s then s else s[k := Held(t)]
    case Renew(_, _) => s
    case Finish(k, t, kept) => if k in s && s[k] != Held(t) then s else s[k := Complete(kept)]
    case Release(k, t) => if Holds(s, k, t) then s - {k} else s
    case Forget(k) => if IsComplete(s, k) then s - {k} else s
  }

  function Answer(s: Store, c: Command): Reply {
    match c
    case Acquire(k, t) =>
      LeaseReply(if k !in s then Acquired(t)
                 else if s[k].Held? then HeldByAnother
                 else AlreadyComplete(s[k].kept))
    case Forget(k) =>
      ForgetReply(if k !in s then NotFound else if s[k].Held? then RefusedRunning else Forgotten)
    case _ => NoReply
  }

  predicate SameAt(s: Store, s': Store, k: Key) {
    (k in s <==> k in s') && (k in s ==> s[k] == s'[k])
  }

  /** Exactly when a command changes a key: a free key is taken or finished, a held key is
      finished or released by its own token only, a complete key is only ever forgotten. */
  lemma WhatChangesAKey(s: Store, c: Command, k: Key)
    ensures !SameAt(s, After(s, c), k) <==>
            c.key == k &&
            (if k !in s then c.Acquire? || c.Finish?
             else if s[k].Held? then (c.Finish? || c.Release?) && s[k] == Held(c.token)
             else c.Forget?)
  {
  }

  /** A key told by what it answers: it is given out once and held from then on, a second asker is sent away,
      `complete` makes it answer with what was kept, `release` and `forget` make it free again, and `forget`
      says whether there was anything to forget. */
  lemma WhatAKeyAnswers(s: Store, k: Key, t: Token, u: Token, kept: Kept)
    requires k !in s
    ensures var held := After(s, Acquire(k, t));
            var complete := After(held, Finish(k, t, kept));
            && Answer(s, Acquire(k, t)) == LeaseReply(Acquired(t)) && Answer(s, Forget(k)) == ForgetReply(NotFound)
            && Answer(held, Acquire(k, u)) == LeaseReply(HeldByAnother)
            && Answer(held, Forget(k)) == ForgetReply(RefusedRunning) && After(held, Forget(k)) == held
            && After(held, Renew(k, u)) == held && After(held, Release(k, t)) == s
            && Answer(complete, Acquire(k, u)) == LeaseReply(AlreadyComplete(kept))
            && Answer(complete, Forget(k)) == ForgetReply(Forgotten) && After(complete, Forget(k)) == s
            && After(s, Finish(k, t, kept)) == complete
            && held == s[k := Held(t)] && complete == s[k := Complete(kept)]
  {
  }

  function AfterAll(s: Store, cs: seq<Command>): Store
    decreases cs
  {
    if cs == [] then s else AfterAll(After(s, cs[0]), cs[1..])
  }

  /** Fencing: no list of commands that leaves out the holder's own `complete` and `release`,
      however stale the tokens it carries, takes a held key from its holder; and with no
      `forget` of it, a complete key keeps the value it was completed with. */
  lemma {:induction false} StaleCommandsAreFenced(s: Store, cs: seq<Command>, k: Key)
    requires k in s
    requires forall c | c in cs && c.key == k ::
               if s[k].Held? then c.Forget? || c.Acquire? || c.Renew? || c.token != s[k].token
               else !c.Forget?
    ensures k in AfterAll(s, cs) && AfterAll(s, cs)[k] == s[k]
    decreases cs
  {
    if cs != [] {
      WhatChangesAKey(s, cs[0], k);
      assert forall c | c in cs[1..] :: c in cs;
      StaleCommandsAreFenced(After(s, cs[0]), cs[1..], k);
    }
  }

  // ---------------------------------------------------------------- what a key is stored as

  function HeldText(t: Token): string { RUNNING_PREFIX + t }

  function KeptText(kept: Kept): string {
    match kept
    case Marker => NOTHING_KEPT
    case WithResult(text) => KEPT_OPEN + text + KEPT_CLOSE
  }

  /** `JSON.parse` over the objects `KeptText` writes. */
  function ParseKept(text: string): Kept {
    if KEPT_OPEN <= text && |text| > |KEPT_OPEN| then WithResult(text[|KEPT_OPEN|..|text| - 1]) else Marker
  }

  function ReadText(text: string): KeyState {
    if RUNNING_PREFIX <= text then Held(text[|RUNNING_PREFIX|..]) else Complete(ParseKept(text))
  }

  function TextOf(st: KeyState): string {
    match st
    case Held(t) => HeldText(t)
    case Complete(kept) => KeptText(kept)
  }

  /** The texts in use. */
  lemma StatesByTheirText(t: Token, text: string)
    ensures TextOf(Held(t)) == "running:" + t
    ensures TextOf(Complete(WithResult(text))) == "{\"result\":" + text + "}" && TextOf(Complete(Marker)) == "{}"
  {
  }

  /** A lease and a kept result never decode as one another, because a kept result opens with
      a brace: every state reads back from the text it is stored as. */
  lemma StateReadsBack(st: KeyState)
    ensures ReadText(TextOf(st)) == st
  {
    match st
    case Held(t) =>
    case Complete(Marker) =>
    case Complete(WithResult(text)) =>
      var stored := KeptText(st.kept);
      assert stored[0] == '{';
      assert stored[|KEPT_OPEN|..|stored| - 1] == text;
  }

  /** A stored text is a token's lease exactly when it is the text of that lease. */
  lemma ReadsAsLeaseIff(text: string, t: Token)
    requires TextOf(ReadText(text)) == text
    ensures text == HeldText(t) <==> ReadText(text) == Held(t)
  {
    StateReadsBack(Held(t));
  }

  lemma TextsAreApart(a: KeyState, b: KeyState)
    ensures TextOf(a) == TextOf(b) <==> a == b
  {
    StateReadsBack(a);
    StateReadsBack(b);
  }

  // ---------------------------------------------------------------- the kept result

  /** A handler's result as JSON writes it, `None` for a result JSON has no text for. */
  datatype Produced = Produced(json: Option<string>)

  function Utf8Bytes(text: string): (n: nat)
    ensures |text| <= n <= 4 * |text|
  {
    if text == "" then 0
    else
      var c := text[0] as int;
      (if c < 0x80 then 1 else if c < 0x800 then 2 else if c < 0x1_0000 then 3 else 4) + Utf8Bytes(text[1..])
  }

  /** A result is kept when it serialises to at most 64 KiB; otherwise the marker alone is. */
  function KeptOf(result: Produced): Kept {
    match result.json
    case None => Marker
    case Some(text) => if Utf8Bytes(text) > MAX_RESULT_BYTES then Marker else WithResult(text)
  }

  lemma {:induction false} BytesAdd(a: string, b: string)
    ensures Utf8Bytes(a + b) == Utf8Bytes(a) + Utf8Bytes(b)
    decreases a
  {
    if a == "" {
      assert a + b == b;
    } else {
      assert (a + b)[1..] == a[1..] + b;
      BytesAdd(a[1..], b);
    }
  }

  /** The bytes of one character: one up to U+007F, two up to U+07FF, three up to U+FFFF, four beyond. */
  lemma BytesOfOne(c: char)
    ensures c <= '\U{7F}' ==> Utf8Bytes([c]) == 1
    ensures '\U{80}' <= c <= '\U{7FF}' ==> Utf8Bytes([c]) == 2
    ensures '\U{800}' <= c <= '\U{FFFF}' ==> Utf8Bytes([c]) == 3
    ensures '\U{10000}' <= c ==> Utf8Bytes([c]) == 4
  {
    assert [c][1..] == "";
  }

  lemma {:induction false} BytesOfAWidth(text: string, width: nat)
    requires forall i | 0 <= i < |text| :: Utf8Bytes([text[i]]) == width
    ensures Utf8Bytes(text) == width * |text|
    decreases text
  {
    if text != "" {
      assert text == [text[0]] + text[1..];
      BytesAdd([text[0]], text[1..]);
      BytesOfAWidth(text[1..], width);
    }
  }

  /** The limit is on bytes, to the byte: a text whose characters all take so many is kept if and only if they
      come to at most 65536; and a result with no text keeps nothing. */
  lemma KeptIff(text: string, width: nat)
    requires forall i | 0 <= i < |text| :: Utf8Bytes([text[i]]) == width
    ensures KeptOf(Produced(Some(text))) == (if width * |text| <= 65536 then WithResult(text) else Marker)
    ensures KeptOf(Produced(None)) == Marker
  {
    BytesOfAWidth(text, width);
  }

  /** Whatever its characters, a text of up to 16 Ki characters is kept and one of more than 64 Ki is
      not; and what is kept is the text itself, so a repeated delivery is answered with it. */
  lemma WhatIsKept(text: string)
    ensures |text| <= 16 * 1024 ==> KeptOf(Produced(Some(text))) == WithResult(text)
    ensures |text| > 64 * 1024 ==> KeptOf(Produced(Some(text))) == Marker
    ensures KeptOf(Produced(Some(text))) in {Marker, WithResult(text)}
    ensures ReadText(KeptText(KeptOf(Produced(Some(text))))) == Complete(KeptOf(Produced(Some(text))))
  {
    StateReadsBack(Complete(KeptOf(Produced(Some(text)))));
  }

  // ---------------------------------------------------------------- the Redis store

  /** Every string is the text of a state. */
  predicate AreStates(strings: map<string, string>) {
    forall k | k in strings :: TextOf(ReadText(strings[k])) == strings[k]
  }

  function StatesOf(strings: map<string, string>): Store {
    map k | k in strings :: ReadText(strings[k])
  }

  lemma StateWritten(strings: map<string, string>, key: Key, st: KeyState)
    requires AreStates(strings)
    ensures AreStates(strings[key := TextOf(st)])
    ensures StatesOf(strings[key := TextOf(st)]) == StatesOf(strings)[key := st]
  {
    StateReadsBack(st);
  }

  /** The Lua scripts over Redis strings, each string with the moment it expires. The keys are
      named by what follows the `jubs:idem:` prefix, which every script is called with. */
  class RedisKeys {
    var strings: map<string, string>
    var expiry: map<string, int>

    ghost predicate Valid()
      reads this
    {
      strings.Keys == expiry.Keys && AreStates(strings)
    }

    ghost function State(): Store
      reads this
    {
      StatesOf(strings)
    }

    constructor ()
      ensures Valid() && State() == map[]
    {
      strings, expiry := map[], map[];
    }

    method AcquireKey(key: Key, token: Token, leaseMs: nat, now: int) returns (lease: Lease)
      requires Valid()
      modifies this
      ensures Valid()
      ensures State() == After(old(State()), Acquire(key, token))
      ensures LeaseReply(lease) == Answer(old(State()), Acquire(key, token))
      ensures expiry == if lease.Acquired? then old(expiry)[key := now + leaseMs] else old(expiry)
    {
      StateWritten(strings, key, Held(token));
      if key in strings {
        var current := strings[key];
        if RUNNING_PREFIX <= current {
          lease := HeldByAnother;
        } else {
          lease := AlreadyComplete(ParseKept(current));
        }
      } else {
        strings, expiry := strings[key := HeldText(token)], expiry[key := now + leaseMs];
        lease := Acquired(token);
      }
    }

    method RenewKey(key: Key, token: Token, leaseMs: nat, now: int)
      requires Valid()
      modifies this`expiry
      ensures Valid()
      ensures State() == After(old(State()), Renew(key, token))
      ensures expiry == if Holds(old(State()), key, token) then old(expiry)[key := now + leaseMs] else old(expiry)
    {
      StateReadsBack(Held(token));
      if key in strings && strings[key] == HeldText(token) {
        expiry := expiry[key := now + leaseMs];
      }
    }

    method CompleteKey(key: Key, token: Token, kept: Kept, retainForMs: nat, now: int)
      requires Valid()
      modifies this
      ensures Valid()
      ensures State() == After(old(State()), Finish(key, token, kept))
      ensures expiry == if key in old(State()) && old(State())[key] != Held(token)
                        then old(expiry) else old(expiry)[key := now + retainForMs]
    {
      if key in strings { ReadsAsLeaseIff(strings[key], token); }
      if key in strings && strings[key] != HeldText(token) {
        return;
      }
      StateWritten(strings, key, Complete(kept));
      strings, expiry := strings[key := KeptText(kept)], expiry[key := now + retainForMs];
    }

    method ReleaseKey(key: Key, token: Token)
      requires Valid()
      modifies this
      ensures Valid()
      ensures State() == After(old(State()), Release(key, token))
      ensures expiry == if Holds(old(State()), key, token) then old(expiry) - {key} else old(expiry)
    {
      StateReadsBack(Held(token));
      if key in strings && strings[key] == HeldText(token) {
        strings, expiry := strings - {key}, expiry - {key};
      }
    }

    method ForgetKey(key: Key) returns (outcome: ForgetOutcome)
      requires Valid()
      modifies this
      ensures Valid()
      ensures State() == After(old(State()), Forget(key))
      ensures ForgetReply(outcome) == Answer(old(State()), Forget(key))
      ensures expiry == if outcome == Forgotten then old(expiry) - {key} else old(expiry)
    {
      if key !in strings {
        outcome := NotFound;
      } else if RUNNING_PREFIX <= strings[key] {
        outcome := RefusedRunning;
      } else {
        strings, expiry := strings - {key}, expiry - {key};
        outcome := Forgotten;
      }
    }
  }

  // ---------------------------------------------------------------- the memory store

  datatype Maps = Maps(leased: map<Key, Token>, kept: map<Key, Kept>)

  function MapsAfter(m: Maps, c: Command): Maps {
    match c
    case Acquire(k, t) => if k in m.kept || k in m.leased then m else m.(leased := m.leased[k := t])
    case Renew(_, _) => m
    case Finish(k, t, kept) =>
      if k in m.leased && m.leased[k] != t then m else Maps(m.leased - {k}, m.kept[k := kept])
    case Release(k, t) => if k in m.leased && m.leased[k] == t then m.(leased := m.leased - {k}) else m
    case Forget(k) => if k in m.leased then m else m.(kept := m.kept - {k})
  }

  function MapsAnswer(m: Maps, c: Command): Reply {
    match c
    case Acquire(k, t) =>
      LeaseReply(if k in m.kept then AlreadyComplete(m.kept[k])
                 else if k in m.leased then HeldByAnother else Acquired(t))
    case Forget(k) =>
      ForgetReply(if k in m.leased then RefusedRunning else if k in m.kept then Forgotten else NotFound)
    case _ => NoReply
  }

  /** The memory driver's store: two maps changed in place, with no clock. */
  class MemoryKeys {
    var leased: map<Key, Token>
    var kept: map<Key, Kept>

    function Both(): Maps
      reads this
    {
      Maps(leased, kept)
    }

    constructor ()
      ensures Both() == Maps(map[], map[])
    {
      leased, kept := map[], map[];
    }

    method AcquireKey(key: Key, token: Token) returns (lease: Lease)
      modifies this
      ensures Both() == MapsAfter(old(Both()), Acquire(key, token))
      ensures LeaseReply(lease) == MapsAnswer(old(Both()), Acquire(key, token))
    {
      if key in kept {
        return AlreadyComplete(kept[key]);
      }
      if key in leased {
        return HeldByAnother;
      }
      leased := leased[key := token];
      lease := Acquired(token);
    }

    method CompleteKey(key: Key, token: Token, result: Kept)
      modifies this
      ensures Both() == MapsAfter(old(Both()), Finish(key, token, result))
    {
      if key in leased && leased[key] != token {
        return;
      }
      leased := leased - {key};
      kept := kept[key := result];
    }

    method ReleaseKey(key: Key, token: Token)
      modifies this
      ensures Both() == MapsAfter(old(Both()), Release(key, token))
    {
      if key in leased && leased[key] == token {
        leased := leased - {key};
      }
    }

    method ForgetKey(key: Key) returns (outcome: ForgetOutcome)
      modifies this
      ensures Both() == MapsAfter(old(Both()), Forget(key))
      ensures ForgetReply(outcome) == MapsAnswer(old(Both()), Forget(key))
    {
      if key in leased {
        return RefusedRunning;
      }
      if key in kept {
        kept := kept - {key};
        return Forgotten;
      }
      assert kept - {key} == kept;
      outcome := NotFound;
    }
  }

  /** The two maps hold what the one map of states holds. */
  predicate Agree(s: Store, m: Maps) {
    && m.leased.Keys !! m.kept.Keys
    && s.Keys == m.leased.Keys + m.kept.Keys
    && (forall k | k in m.leased :: s[k] == Held(m.leased[k]))
    && (forall k | k in m.kept :: s[k] == Complete(m.kept[k]))
  }

  /** The one command the two stores treat apart: a `complete` of a key complete with another
      value, which Redis refuses and the memory store overwrites. */
  predicate Overwrites(s: Store, c: Command) {
    c.Finish? && IsComplete(s, c.key) && s[c.key] != Complete(c.kept)
  }

  /** From agreeing states every command is answered alike, and leaves them agreeing exactly
      when it is not a `complete` of a key that already keeps another value. */
  lemma StoresAgreeUnlessOverwritten(s: Store, m: Maps, c: Command)
    requires Agree(s, m)
    ensures Answer(s, c) == MapsAnswer(m, c)
    ensures Agree(After(s, c), MapsAfter(m, c)) <==> !Overwrites(s, c)
  {
    var s', m' := After(s, c), MapsAfter(m, c);
    if Overwrites(s, c) {
      assert c.key in m'.kept && s'[c.key] != Complete(m'.kept[c.key]);
    } else {
      forall k | k in m'.kept ensures k in s' && s'[k] == Complete(m'.kept[k]) {
      }
    }
  }

  /** A run over which the two stores part ways. */
  lemma OverwriteParts()
    ensures var s := map["k" := Complete(Marker)];
            var m := Maps(map[], map["k" := Marker]);
            var c := Finish("k", "t", WithResult("1"));
            Agree(s, m) && !Agree(After(s, c), MapsAfter(m, c))
  {
    StoresAgreeUnlessOverwritten(map["k" := Complete(Marker)], Maps(map[], map["k" := Marker]),
                                 Finish("k", "t", WithResult("1")));
  }
}
