/**
 * The in-process backend as pure state: a bounded map with expiry, global sequence numbers and three
 * eviction policies.
 */
module LocalModel {
  import opened Common
  import CacheKeys

  type Key = string
  type Bytes = CacheKeys.Bytes

  datatype Entry = Entry(bytes: Bytes, expiresAt: nat, insertSeq: nat, lastAccess: nat, accesses: nat)

  type Entries = map<Key, Entry>

  datatype Strategy = Fifo | Lfu | Lru

  /** `namespaceHash` stands for BLAKE3 over a namespace. */
  datatype Config = Config(maxEntries: Option<nat>, eviction: Strategy, namespaceHash: string -> string)

  datatype Local = Local(entries: Entries, generations: map<string, nat>, seq_: nat)

  const EMPTY := Local(map[], map[], 0)

  const DEFAULT_TTL_MS: nat := 60_000

  function EntryKey(digest: string): Key { "entry:" + digest }

  function GenerationKey(cfg: Config, namespace: string): Key { "generation:" + cfg.namespaceHash(namespace) }

  /** `put` replaces a zero TTL by a minute, truncates it to 64 bits and saturates the sum. */
  function ExpiryOf(now: nat, ttlMs: nat): nat {
    SaturatingAdd(now, (if ttlMs == 0 then DEFAULT_TTL_MS else ttlMs) % (U64_MAX + 1))
  }

  function NewEntry(bytes: Bytes, expiresAt: nat, seq_: nat): Entry {
    Entry(bytes, expiresAt, seq_, seq_, 0)
  }

  // ----------------------------------------------------------------- eviction

  /** `retain(|_, e| e.expires_at_ms > now)` */
  function Live(m: Entries, now: nat): Entries {
    map k | k in m && m[k].expiresAt > now :: m[k]
  }

  /** The policy's order: the entry to evict comes first. */
  predicate Before(strategy: Strategy, a: Entry, b: Entry) {
    match strategy
    case Fifo => a.insertSeq < b.insertSeq
    case Lru => a.lastAccess < b.lastAccess
    case Lfu => a.accesses < b.accesses || (a.accesses == b.accesses && a.insertSeq < b.insertSeq)
  }

  predicate IsVictim(strategy: Strategy, m: Entries, v: Key) {
    v in m && forall k | k in m && k != v :: Before(strategy, m[v], m[k])
  }

  /** No two entries share a sequence number, so every policy orders them totally. */
  ghost predicate Distinct(m: Entries) {
    forall a, b | a in m && b in m && a != b ::
      m[a].insertSeq != m[b].insertSeq && m[a].lastAccess != m[b].lastAccess
  }

  lemma VictimExists(strategy: Strategy, m: Entries)
    requires m != map[] && Distinct(m)
    ensures exists v :: IsVictim(strategy, m, v)
    decreases |m|
  {
    var u :| u in m;
    var rest := m - {u};
    if rest == map[] {
      assert forall k | k in m :: k == u || k in rest;
      assert IsVictim(strategy, m, u);
    } else {
      FewerKeys(rest, m, u);
      VictimExists(strategy, rest);
      var w :| IsVictim(strategy, rest, w);
      FirstOfTwo(strategy, m, u, w);
    }
  }

  lemma FirstOfTwo(strategy: Strategy, m: Entries, u: Key, w: Key)
    requires Distinct(m) && u in m && IsVictim(strategy, m - {u}, w)
    ensures exists v :: IsVictim(strategy, m, v)
  {
    assert forall k | k in m && k != u :: k in m - {u};
    assert IsVictim(strategy, m, if Before(strategy, m[w], m[u]) then w else u);
  }

  lemma VictimIsUnique(strategy: Strategy, m: Entries, v: Key, w: Key)
    requires IsVictim(strategy, m, v) && IsVictim(strategy, m, w)
    ensures v == w
  {
  }

  ghost function Victim(strategy: Strategy, m: Entries): (v: Key)
    requires m != map[] && Distinct(m)
    ensures IsVictim(strategy, m, v)
  {
    VictimExists(strategy, m);
    var v :| IsVictim(strategy, m, v);
    v
  }

  /** The smallest access count. */
  ghost predicate IsMinAccess(m: Entries, low: nat) {
    (forall k | k in m :: low <= m[k].accesses) && exists k :: k in m && m[k].accesses == low
  }

  lemma MinAccessIsUnique(m: Entries, a: nat, b: nat)
    requires IsMinAccess(m, a) && IsMinAccess(m, b)
    ensures a == b
  {
  }

  function Aged(e: Entry, amount: nat): Entry {
    e.(accesses := if amount <= e.accesses then e.accesses - amount else 0)
  }

  /** The LFU sweep: every counter loses `amount`, stopping at zero. */
  function Sweep(m: Entries, amount: nat): Entries {
    map k | k in m :: Aged(m[k], amount)
  }

  /** What `pick_victim` leaves in the map: only LFU rewrites it, by its smallest counter. */
  ghost function Prepared(strategy: Strategy, m: Entries): Entries
    requires m != map[] && Distinct(m)
  {
    if strategy == Lfu then Sweep(m, m[Victim(Lfu, m)].accesses) else m
  }

  lemma SweepKeepsOrder(m: Entries, v: Key)
    requires IsVictim(Lfu, m, v)
    ensures IsMinAccess(m, m[v].accesses)
    ensures IsVictim(Lfu, Sweep(m, m[v].accesses), v)
    ensures Distinct(m) ==> Distinct(Sweep(m, m[v].accesses))
    ensures Sweep(m, m[v].accesses).Keys == m.Keys
  {
  }

  /** The eviction loop: entries leave until fewer than `max` remain, or none. Also lists who left. */
  ghost function EvictLoop(strategy: Strategy, m: Entries, max: nat): (r: (Entries, seq<Key>))
    requires Distinct(m)
    ensures Distinct(r.0) && r.0.Keys <= m.Keys
    ensures |r.0| < max || r.0 == map[]
    ensures forall k | k in r.0 :: OnlyAged(r.0[k], m[k])
    decreases |m|
  {
    if |m| < max || m == map[] then (m, [])
    else
      var v := Victim(strategy, m);
      PreparedKeepsOrder(strategy, m);
      var left := Prepared(strategy, m) - {v};
      assert left.Keys == m.Keys - {v};
      var r := EvictLoop(strategy, left, max);
      (r.0, [v] + r.1)
  }

  /** `a` is `b` with, at most, a smaller counter. */
  predicate OnlyAged(a: Entry, b: Entry) {
    a.(accesses := 0) == b.(accesses := 0) && a.accesses <= b.accesses
  }

  lemma PreparedKeepsOrder(strategy: Strategy, m: Entries)
    requires m != map[] && Distinct(m)
    ensures var p := Prepared(strategy, m);
            && p.Keys == m.Keys && Distinct(p) && IsVictim(strategy, p, Victim(strategy, m))
            && forall k | k in m :: OnlyAged(p[k], m[k])
  {
  }

  lemma LiveKeepsDistinct(m: Entries, now: nat)
    requires Distinct(m)
    ensures Distinct(Live(m, now))
  {
  }

  /** What one eviction leaves. */
  lemma EvictLeaves(strategy: Strategy, m: Entries)
    requires Distinct(m) && m != map[]
    ensures var left := Prepared(strategy, m) - {Victim(strategy, m)};
            Distinct(left) && left.Keys == m.Keys - {Victim(strategy, m)} && |left| < |m|
  {
    PreparedKeepsOrder(strategy, m);
    FewerKeys(Prepared(strategy, m) - {Victim(strategy, m)}, m, Victim(strategy, m));
  }

  lemma EvictOneMore(strategy: Strategy, m: Entries, max: nat)
    requires Distinct(m) && m != map[] && |m| >= max
    ensures var left := Prepared(strategy, m) - {Victim(strategy, m)};
            && Distinct(left) && left.Keys == m.Keys - {Victim(strategy, m)} && |left| < |m|
            && EvictLoop(strategy, m, max).0 == EvictLoop(strategy, left, max).0
            && EvictLoop(strategy, m, max).1 == [Victim(strategy, m)] + EvictLoop(strategy, left, max).1
  {
    EvictLeaves(strategy, m);
  }

  lemma FewerKeys(left: Entries, m: Entries, v: Key)
    requires v in m && left.Keys == m.Keys - {v}
    ensures |left| < |m|
  {
    assert |left.Keys| == |m.Keys| - 1;
  }

  lemma Appended(xs: seq<Key>, x: Key, ys: seq<Key>)
    ensures xs + ([x] + ys) == (xs + [x]) + ys
  {
  }

  /** `evict_if_needed` */
  ghost function EvictIfNeeded(cfg: Config, m: Entries, now: nat): (r: (Entries, seq<Key>))
    requires Distinct(m)
    ensures Distinct(r.0) && r.0.Keys <= m.Keys
    ensures forall k | k in r.0 :: OnlyAged(r.0[k], m[k])
  {
    if cfg.maxEntries.None? || |m| < cfg.maxEntries.value then (m, [])
    else
      LiveKeepsDistinct(m, now);
      EvictLoop(cfg.eviction, Live(m, now), cfg.maxEntries.value)
  }

  // --------------------------------------------------------------- operations

  datatype Op =
    | Get(digest: string, now: nat)
    | Put(digest: string, bytes: Bytes, ttlMs: nat, now: nat)
    | Generation(namespace: string, now: nat)
    | Bump(namespace: string, now: nat)
    | Prune(now: nat)

  /** What a caller can see of one operation, plus the keys the policy chose to evict. */
  datatype Seen =
    | Got(value: Option<Bytes>)
    | Stored(evicted: seq<Key>)
    | Read(generation: nat)
    | Bumped(generation: nat, evicted: seq<Key>)
    | Pruned

  function GenerationOf(generations: map<string, nat>, namespace: string): nat {
    if namespace in generations then generations[namespace] else 0
  }

  function Touched(e: Entry, seq_: nat): Entry {
    e.(lastAccess := seq_, accesses := SaturatingAdd(e.accesses, 1))
  }

  /** Sequence numbers stay distinct and behind the counter, and counters stay behind sequence numbers. */
  ghost predicate Valid(st: Local) {
    && Distinct(st.entries)
    && (forall k | k in st.entries ::
          var e := st.entries[k];
          e.insertSeq <= e.lastAccess < st.seq_ && e.accesses <= e.lastAccess - e.insertSeq)
  }

  function GetStep(st: Local, digest: string, now: nat): (Local, Seen) {
    var k := EntryKey(digest);
    if k !in st.entries then (st, Got(None))
    else if st.entries[k].expiresAt <= now then (st.(entries := st.entries - {k}), Got(None))
    else
      (st.(entries := st.entries[k := Touched(st.entries[k], st.seq_)], seq_ := st.seq_ + 1),
       Got(Some(st.entries[k].bytes)))
  }

  lemma EvictionKeepsValid(cfg: Config, st: Local, now: nat)
    requires Valid(st)
    ensures Valid(st.(entries := EvictIfNeeded(cfg, st.entries, now).0))
  {
  }

  lemma GetKeepsValid(st: Local, digest: string, now: nat)
    requires Valid(st)
    ensures Valid(GetStep(st, digest, now).0)
  {
  }

  /** Makes room, then inserts under a fresh sequence number. */
  ghost function InsertStep(cfg: Config, st: Local, k: Key, bytes: Bytes, expiresAt: nat, now: nat)
    : (r: (Local, seq<Key>))
    requires Valid(st)
    ensures Valid(r.0)
  {
    EvictionKeepsValid(cfg, st, now);
    var room := EvictIfNeeded(cfg, st.entries, now);
    (st.(entries := room.0[k := NewEntry(bytes, expiresAt, st.seq_)], seq_ := st.seq_ + 1), room.1)
  }

  /** The debug copy of a generation kept among the entries: `to_le_bytes`. */
  function GenerationBytes(g: nat): Bytes {
    CacheKeys.LittleEndian(g, 8)
  }

  ghost function BumpStep(cfg: Config, st: Local, namespace: string, now: nat): (r: (Local, Seen))
    requires Valid(st)
    ensures Valid(r.0)
  {
    var g := GenerationOf(st.generations, namespace) + 1;
    var inserted := InsertStep(cfg, st, GenerationKey(cfg, namespace), GenerationBytes(g), U64_MAX, now);
    (inserted.0.(generations := st.generations[namespace := g]), Bumped(g, inserted.1))
  }

  /** Insertion has nothing to do with the generations, so the counter may be raised first. */
  lemma BumpFirst(cfg: Config, st: Local, raised: Local, ns: string, now: nat)
    requires Valid(st) && raised == st.(generations := st.generations[ns := GenerationOf(st.generations, ns) + 1])
    ensures Valid(raised)
    ensures var g := GenerationOf(st.generations, ns) + 1;
            var r := InsertStep(cfg, raised, GenerationKey(cfg, ns), GenerationBytes(g), U64_MAX, now);
            BumpStep(cfg, st, ns, now) == (r.0, Bumped(g, r.1))
  {
  }

  lemma BumpInserts(cfg: Config, st: Local, ns: string, now: nat)
    requires Valid(st)
    ensures var g := GenerationOf(st.generations, ns) + 1;
            && BumpStep(cfg, st, ns, now).0.generations == st.generations[ns := g]
            && BumpStep(cfg, st, ns, now).0.entries
               == InsertStep(cfg, st, GenerationKey(cfg, ns), GenerationBytes(g), U64_MAX, now).0.entries
  {
  }

  ghost function Apply(cfg: Config, st: Local, op: Op): (r: (Local, Seen))
    requires Valid(st)
    ensures Valid(r.0)
  {
    match op
    case Get(digest, now) => GetKeepsValid(st, digest, now); GetStep(st, digest, now)
    case Put(digest, bytes, ttlMs, now) =>
      var r := InsertStep(cfg, st, EntryKey(digest), bytes, ExpiryOf(now, ttlMs), now);
      (r.0, Stored(r.1))
    case Generation(namespace, _) => (st, Read(GenerationOf(st.generations, namespace)))
    case Bump(namespace, now) => BumpStep(cfg, st, namespace, now)
    case Prune(now) => (st.(entries := Live(st.entries, now)), Pruned)
  }

  // -------------------------------------------------------------------- traces

  ghost function Run(cfg: Config, st: Local, trace: seq<Op>): (r: (Local, seq<Seen>))
    requires Valid(st)
    ensures Valid(r.0) && |r.1| == |trace|
  {
    if trace == [] then (st, []) else
      var r := Run(cfg, st, trace[..|trace| - 1]);
      var s := Apply(cfg, r.0, trace[|trace| - 1]);
      (s.0, r.1 + [s.1])
  }

  /** The clock never goes back. */
  ghost predicate Monotone(trace: seq<Op>) {
    forall i, j | 0 <= i < j < |trace| :: trace[i].now <= trace[j].now
  }

  /**
   * The machine integers of the source are never at their limit: after a trace every sequence number and
   * every access count is at most the length of the trace.
   */
  lemma {:induction false} CountersStaySmall(cfg: Config, trace: seq<Op>)
    ensures var st := Run(cfg, EMPTY, trace).0;
            && st.seq_ <= |trace|
            && forall k | k in st.entries :: st.entries[k].accesses <= |trace| && st.entries[k].lastAccess < |trace|
  {
    if trace != [] {
      CountersStaySmall(cfg, trace[..|trace| - 1]);
    }
  }
}
