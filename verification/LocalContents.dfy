/** What the in-process backend answers: a plain expiring map, minus what was evicted; generations are exact. */
module LocalContents {
  import opened Common
  import opened LocalModel

  // -------------------------------------------------------------------- keys

  /** Data entries and the debug copies of generations never share a storage key. */
  lemma KeysNeverCollide(cfg: Config, digest: string, namespace: string)
    ensures EntryKey(digest) != GenerationKey(cfg, namespace)
  {
    assert EntryKey(digest)[0] == 'e' && GenerationKey(cfg, namespace)[0] == 'g';
  }

  lemma EntryKeyInjective(a: string, b: string)
    requires EntryKey(a) == EntryKey(b)
    ensures a == b
  {
    assert EntryKey(a)[6..] == a && EntryKey(b)[6..] == b;
  }

  // --------------------------------------------------- the plain expiring map

  datatype Slot = Slot(bytes: Bytes, expiresAt: nat)

  /** The last value put under each digest, with its expiry: no bound, no order, no clean-up. */
  function LastPut(trace: seq<Op>): map<string, Slot> {
    if trace == [] then map[] else
      var before, op := LastPut(trace[..|trace| - 1]), trace[|trace| - 1];
      if op.Put? then before[op.digest := Slot(op.bytes, ExpiryOf(op.now, op.ttlMs))] else before
  }

  function Unexpired(slots: map<string, Slot>, digest: string, now: nat): Option<Bytes> {
    if digest in slots && slots[digest].expiresAt > now then Some(slots[digest].bytes) else None
  }

  ghost predicate Agrees(m: Entries, slots: map<string, Slot>, digest: string) {
    EntryKey(digest) in m ==>
      && digest in slots
      && m[EntryKey(digest)].bytes == slots[digest].bytes
      && m[EntryKey(digest)].expiresAt == slots[digest].expiresAt
  }

  lemma StepAgrees(cfg: Config, st: Local, op: Op, before: map<string, Slot>, after: map<string, Slot>, digest: string)
    requires Valid(st) && Agrees(st.entries, before, digest)
    requires after == if op.Put? then before[op.digest := Slot(op.bytes, ExpiryOf(op.now, op.ttlMs))] else before
    ensures Agrees(Apply(cfg, st, op).0.entries, after, digest)
  {
    match op
    case Get(d, _) =>
    case Put(d, _, _, _) =>
      if EntryKey(d) == EntryKey(digest) {
        EntryKeyInjective(d, digest);
      }
    case Bump(ns, _) => KeysNeverCollide(cfg, digest, ns);
    case _ =>
  }

  lemma {:induction false} RunAgrees(cfg: Config, trace: seq<Op>, digest: string)
    ensures Agrees(Run(cfg, EMPTY, trace).0.entries, LastPut(trace), digest)
  {
    if trace != [] {
      var shorter := trace[..|trace| - 1];
      RunAgrees(cfg, shorter, digest);
      StepAgrees(cfg, Run(cfg, EMPTY, shorter).0, trace[|trace| - 1], LastPut(shorter), LastPut(trace), digest);
    }
  }

  /** Without a bound an entry goes only when it has expired. */
  lemma StepKeepsEntry(cfg: Config, st: Local, op: Op, k: Key, now: nat)
    requires Valid(st) && cfg.maxEntries.None? && op.now <= now && k in st.entries && st.entries[k].expiresAt > now
    ensures k in Apply(cfg, st, op).0.entries
  {
  }

  /** Without a bound nothing unexpired is ever missing. */
  lemma {:induction false} UnboundedKeepsAll(cfg: Config, trace: seq<Op>, digest: string, now: nat)
    requires cfg.maxEntries.None?
    requires forall i | 0 <= i < |trace| :: trace[i].now <= now
    requires Unexpired(LastPut(trace), digest, now).Some?
    ensures EntryKey(digest) in Run(cfg, EMPTY, trace).0.entries
  {
    if trace != [] {
      var shorter, op := trace[..|trace| - 1], trace[|trace| - 1];
      RunAgrees(cfg, shorter, digest);
      if !(op.Put? && op.digest == digest) {
        UnboundedKeepsAll(cfg, shorter, digest, now);
        StepKeepsEntry(cfg, Run(cfg, EMPTY, shorter).0, op, EntryKey(digest), now);
      }
    }
  }

  /** The observation at position `i` is the step taken from the state the prefix leads to. */
  lemma {:induction false} SeenAt(cfg: Config, trace: seq<Op>, i: nat)
    requires i < |trace|
    ensures Run(cfg, EMPTY, trace).1[i] == Apply(cfg, Run(cfg, EMPTY, trace[..i]).0, trace[i]).1
  {
    if i < |trace| - 1 {
      SeenAt(cfg, trace[..|trace| - 1], i);
      assert trace[..|trace| - 1][..i] == trace[..i];
    }
  }

  /**
   * Refinement of the plain expiring map: whatever the bound, the policy and the clean-ups, a `get` answers
   * nothing or exactly the last bytes put under that digest and still unexpired; without a bound it always
   * answers what the plain map answers.
   */
  lemma GetRefinesLastPut(cfg: Config, trace: seq<Op>, i: nat)
    requires i < |trace| && trace[i].Get?
    ensures var seen := Run(cfg, EMPTY, trace).1[i];
            var plain := Unexpired(LastPut(trace[..i]), trace[i].digest, trace[i].now);
            && seen.Got?
            && (seen.value == None || seen.value == plain)
            && (cfg.maxEntries.None? && Monotone(trace) ==> seen.value == plain)
  {
    SeenAt(cfg, trace, i);
    RunAgrees(cfg, trace[..i], trace[i].digest);
    var plain := Unexpired(LastPut(trace[..i]), trace[i].digest, trace[i].now);
    if cfg.maxEntries.None? && Monotone(trace) && plain.Some? {
      UnboundedKeepsAll(cfg, trace[..i], trace[i].digest, trace[i].now);
    }
  }

  // ------------------------------------------------------------------- lifetime

  predicate Puts(op: Op, digest: string) {
    op.Put? && op.digest == digest
  }

  /** Operation `j` is the last put of `digest` before position `i`. */
  ghost predicate LastPutAt(trace: seq<Op>, digest: string, j: nat, i: nat)
    requires i <= |trace|
  {
    j < i && Puts(trace[j], digest) && forall k | j < k < i :: !Puts(trace[k], digest)
  }

  lemma {:induction false} LastPutIsIt(trace: seq<Op>, digest: string, j: nat)
    requires LastPutAt(trace, digest, j, |trace|)
    ensures digest in LastPut(trace)
    ensures LastPut(trace)[digest] == Slot(trace[j].bytes, ExpiryOf(trace[j].now, trace[j].ttlMs))
  {
    if j < |trace| - 1 {
      assert !Puts(trace[|trace| - 1], digest);
      LastPutIsIt(trace[..|trace| - 1], digest, j);
    }
  }

  lemma {:induction false} SomethingWasPut(trace: seq<Op>, digest: string) returns (j: nat)
    requires digest in LastPut(trace)
    ensures LastPutAt(trace, digest, j, |trace|)
  {
    var n := |trace| - 1;
    if Puts(trace[n], digest) {
      j := n;
    } else {
      j := SomethingWasPut(trace[..n], digest);
    }
  }

  /** At `now` a put is still alive: its TTL, a minute if zero, has not passed, nor has the clock run out. */
  predicate Alive(put: Op, now: nat)
    requires put.Put?
  {
    var ttl := if put.ttlMs == 0 then 60_000 else put.ttlMs % 0x1_0000_0000_0000_0000;
    now < put.now + ttl && now < 0xFFFF_FFFF_FFFF_FFFF
  }

  lemma AliveIsUnexpired(put: Op, now: nat)
    requires put.Put?
    ensures ExpiryOf(put.now, put.ttlMs) > now <==> Alive(put, now)
  {
  }

  lemma PlainReadIsAlive(trace: seq<Op>, digest: string, j: nat, i: nat, now: nat)
    requires i <= |trace| && LastPutAt(trace, digest, j, i)
    ensures Unexpired(LastPut(trace[..i]), digest, now) == if Alive(trace[j], now) then Some(trace[j].bytes) else None
  {
    assert LastPutAt(trace[..i], digest, j, i);
    LastPutIsIt(trace[..i], digest, j);
    AliveIsUnexpired(trace[j], now);
  }

  /**
   * How long an entry lives. A read answers only bytes that were put under its digest, by the last such put,
   * and only while that put is alive; without a bound, on a clock that never goes back, it answers them
   * exactly as long as that put is alive.
   */
  lemma ReadsLiveForTheirTtl(cfg: Config, trace: seq<Op>, i: nat, j: nat)
    requires i < |trace| && trace[i].Get? && LastPutAt(trace, trace[i].digest, j, i)
    ensures var seen := Run(cfg, EMPTY, trace).1[i];
            && seen.Got?
            && (seen.value.Some? ==> seen.value.value == trace[j].bytes && Alive(trace[j], trace[i].now))
            && (cfg.maxEntries.None? && Monotone(trace) ==> (seen.value.Some? <==> Alive(trace[j], trace[i].now)))
  {
    GetRefinesLastPut(cfg, trace, i);
    PlainReadIsAlive(trace, trace[i].digest, j, i, trace[i].now);
  }

  /** What was never put is never read. */
  lemma OnlyPutsAreRead(cfg: Config, trace: seq<Op>, i: nat) returns (j: nat)
    requires i < |trace| && trace[i].Get? && Run(cfg, EMPTY, trace).1[i] != Got(None)
    ensures LastPutAt(trace, trace[i].digest, j, i)
  {
    GetRefinesLastPut(cfg, trace, i);
    j := SomethingWasPut(trace[..i], trace[i].digest);
  }

  // -------------------------------------------------------------- generations

  /** How often `namespace` was bumped. */
  function Bumps(trace: seq<Op>, namespace: string): nat {
    if trace == [] then 0 else
      var op := trace[|trace| - 1];
      Bumps(trace[..|trace| - 1], namespace) + (if op.Bump? && op.namespace == namespace then 1 else 0)
  }

  lemma {:induction false} GenerationIsBumpCount(cfg: Config, trace: seq<Op>, namespace: string)
    ensures GenerationOf(Run(cfg, EMPTY, trace).0.generations, namespace) == Bumps(trace, namespace)
  {
    if trace != [] {
      GenerationIsBumpCount(cfg, trace[..|trace| - 1], namespace);
    }
  }

  /**
   * Generations survive everything else that happens: each bump answers its own rank among the bumps of its
   * namespace, each read the number of bumps so far, even when the copy kept among the entries was evicted.
   */
  lemma GenerationsAreRanks(cfg: Config, trace: seq<Op>, i: nat)
    requires i < |trace|
    ensures var seen := Run(cfg, EMPTY, trace).1[i];
            && (trace[i].Bump? ==> seen.Bumped? && seen.generation == Bumps(trace[..i + 1], trace[i].namespace))
            && (trace[i].Generation? ==> seen == Read(Bumps(trace[..i], trace[i].namespace)))
  {
    SeenAt(cfg, trace, i);
    assert trace[..i + 1][..i] == trace[..i];
    if trace[i].Bump? || trace[i].Generation? {
      GenerationIsBumpCount(cfg, trace[..i], trace[i].namespace);
    }
  }

  // ----------------------------------------------------------------- capacity

  /** Making room leaves a place, or nothing at all when the bound is zero. */
  lemma InsertStaysWithin(cfg: Config, st: Local, k: Key, bytes: Bytes, expiresAt: nat, now: nat)
    requires Valid(st) && cfg.maxEntries.Some? && |st.entries| <= Max(1, cfg.maxEntries.value)
    ensures |InsertStep(cfg, st, k, bytes, expiresAt, now).0.entries| <= Max(1, cfg.maxEntries.value)
  {
  }

  lemma StepStaysWithin(cfg: Config, st: Local, op: Op)
    requires Valid(st) && cfg.maxEntries.Some? && |st.entries| <= Max(1, cfg.maxEntries.value)
    ensures |Apply(cfg, st, op).0.entries| <= Max(1, cfg.maxEntries.value)
  {
    match op
    case Get(digest, now) => SubsetCardinality(GetStep(st, digest, now).0.entries.Keys, st.entries.Keys);
    case Put(digest, bytes, ttl, now) => InsertStaysWithin(cfg, st, EntryKey(digest), bytes, ExpiryOf(now, ttl), now);
    case Generation(_, _) =>
    case Bump(ns, now) =>
      var g := GenerationOf(st.generations, ns) + 1;
      BumpInserts(cfg, st, ns, now);
      InsertStaysWithin(cfg, st, GenerationKey(cfg, ns), GenerationBytes(g), U64_MAX, now);
    case Prune(now) => SubsetCardinality(Live(st.entries, now).Keys, st.entries.Keys);
  }

  /** A bounded backend never holds more than max(1, max_entries) entries. */
  lemma {:induction false} NeverOverCapacity(cfg: Config, trace: seq<Op>)
    requires cfg.maxEntries.Some?
    ensures |Run(cfg, EMPTY, trace).0.entries| <= Max(1, cfg.maxEntries.value)
  {
    if trace != [] {
      NeverOverCapacity(cfg, trace[..|trace| - 1]);
      StepStaysWithin(cfg, Run(cfg, EMPTY, trace[..|trace| - 1]).0, trace[|trace| - 1]);
    }
  }
}
