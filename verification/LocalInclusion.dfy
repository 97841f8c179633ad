/** A larger bound never hurts: under FIFO and LRU, what the smaller backend holds, the larger one holds too. */
module LocalInclusion {
  import opened Common
  import opened LocalModel
  import LocalContents
  import LocalExpiry

  /** The sequence number a list policy orders by. */
  function Rank(strategy: Strategy, e: Entry): nat {
    if strategy == Fifo then e.insertSeq else e.lastAccess
  }

  /** `b` holds what `a` holds. */
  ghost predicate SameSlots(a: Entries, b: Entries) {
    forall k | k in a :: k in b && a[k].bytes == b[k].bytes && a[k].expiresAt == b[k].expiresAt
  }

  /** `b` holds at most one entry more. */
  ghost predicate OneExtra(a: Entries, b: Entries) {
    forall j, k | j in b && j !in a && k in b && k !in a :: j == k
  }

  /** They rank what they share alike. */
  ghost predicate SameOrder(strategy: Strategy, a: Entries, b: Entries) {
    forall j, k | j in a && k in a && j in b && k in b ::
      Rank(strategy, a[j]) < Rank(strategy, a[k]) <==> Rank(strategy, b[j]) < Rank(strategy, b[k])
  }

  ghost predicate Includes(strategy: Strategy, a: Entries, b: Entries) {
    SameSlots(a, b) && OneExtra(a, b) && SameOrder(strategy, a, b)
  }

  lemma IncludesLive(strategy: Strategy, a: Entries, b: Entries, now: nat)
    requires Includes(strategy, a, b)
    ensures Includes(strategy, Live(a, now), Live(b, now))
  {
  }

  lemma IncludesRemove(strategy: Strategy, a: Entries, b: Entries, k: Key)
    requires Includes(strategy, a, b)
    ensures Includes(strategy, a - {k}, b - {k})
  {
  }

  ghost predicate Newest(strategy: Strategy, m: Entries, k: Key, e: Entry) {
    forall j | j in m && j != k :: Rank(strategy, m[j]) < Rank(strategy, e)
  }

  /** Both take in, as their newest entry, the same value under the same key. */
  lemma IncludesNewest(strategy: Strategy, a: Entries, b: Entries, k: Key, x: Entry, y: Entry)
    requires Includes(strategy, a, b) && x.bytes == y.bytes && x.expiresAt == y.expiresAt
    requires Newest(strategy, a, k, x) && Newest(strategy, b, k, y)
    ensures Includes(strategy, a[k := x], b[k := y])
  {
  }

  /** A hit seen only by the larger one changes nothing that they share. */
  lemma IncludesExtraTouch(strategy: Strategy, a: Entries, b: Entries, k: Key, y: Entry)
    requires Includes(strategy, a, b) && k !in a && k in b
    ensures Includes(strategy, a, b[k := y])
  {
  }

  lemma EvictAtMostOne(strategy: Strategy, m: Entries, max: nat)
    requires Distinct(m) && strategy != Lfu && |m| <= max
    ensures |m| < max ==> EvictLoop(strategy, m, max).0 == m
    ensures 0 < |m| == max ==> EvictLoop(strategy, m, max).0 == m - {Victim(strategy, m)}
  {
  }

  lemma EvictAll(strategy: Strategy, m: Entries, max: nat)
    requires Distinct(m) && max <= 1
    ensures EvictLoop(strategy, m, max).0 == map[]
  {
  }

  /** The larger one is full: either both evict the same key, or it gives up exactly its extra entry. */
  lemma BothEvict(strategy: Strategy, a: Entries, b: Entries)
    requires strategy != Lfu && Distinct(a) && Distinct(b) && Includes(strategy, a, b)
    requires a != map[] && b != map[]
    ensures Includes(strategy, a - {Victim(strategy, a)}, b - {Victim(strategy, b)})
  {
  }

  lemma OneEvicts(strategy: Strategy, a: Entries, b: Entries, v: Key)
    requires Includes(strategy, a, b) && a.Keys == b.Keys
    ensures Includes(strategy, a - {v}, b)
  {
  }

  /** What the loop leaves when the map is at most full. */
  ghost function Squeezed(strategy: Strategy, m: Entries, max: nat): (r: Entries)
    requires Distinct(m)
  {
    if max <= 1 then map[] else if |m| == max then m - {Victim(strategy, m)} else m
  }

  lemma LoopIsSqueeze(strategy: Strategy, m: Entries, max: nat)
    requires Distinct(m) && strategy != Lfu && |m| <= Max(1, max)
    ensures EvictLoop(strategy, m, max).0 == Squeezed(strategy, m, max)
  {
    if max <= 1 {
      EvictAll(strategy, m, max);
    } else {
      EvictAtMostOne(strategy, m, max);
    }
  }

  /** The heart of the argument: one eviction on each side, at bounds one apart, keeps the inclusion. */
  lemma RoomIncludes(strategy: Strategy, a: Entries, b: Entries, max: nat)
    requires strategy != Lfu && Distinct(a) && Distinct(b) && Includes(strategy, a, b)
    requires |a| <= Max(1, max) && |b| <= max + 1
    ensures Includes(strategy, Squeezed(strategy, a, max), Squeezed(strategy, b, max + 1))
  {
    Sizes(a, b);
    if max == 1 {
      if |b| == 2 {
        var w := Victim(strategy, b);
        FewerKeys(b - {w}, b, w);
        AtMostOneKey(b - {w});
      } else {
        AtMostOneKey(b);
      }
    } else if max > 1 && |a| == max && |b| == max + 1 {
      BothEvict(strategy, a, b);
    } else if max > 1 && |a| == max {
      OneEvicts(strategy, a, b, Victim(strategy, a));
    }
  }

  lemma AtMostOneKey(m: Entries)
    requires |m| <= 1
    ensures OneExtra(map[], m)
  {
    forall j, k | j in m && k in m ensures j == k {
      if j != k {
        assert |m.Keys| == |m|;
        TwoMembers(m.Keys, j, k);
      }
    }
  }

  lemma Sizes(a: Entries, b: Entries)
    requires SameSlots(a, b) && OneExtra(a, b)
    ensures |a| <= |b| <= |a| + 1
    ensures |a| == |b| ==> a.Keys == b.Keys
  {
    var extra := b.Keys - a.Keys;
    assert b.Keys == a.Keys + extra;
    assert |b.Keys| == |a.Keys| + |extra|;
    if extra != {} {
      var x :| x in extra;
      assert extra == {x};
    }
  }

  // ------------------------------------------------------------------- traces

  /** Both backends as a reader sees them at `now`. */
  ghost predicate Related(cfg: Config, a: Local, b: Local, max: nat, now: nat) {
    && a.generations == b.generations
    && Includes(cfg.eviction, Live(a.entries, now), Live(b.entries, now))
    && |Live(a.entries, now)| <= Max(1, max) && |Live(b.entries, now)| <= max + 1
  }

  function Bounded(cfg: Config, max: nat): Config {
    cfg.(maxEntries := Some(max))
  }

  lemma RelatedLater(cfg: Config, a: Local, b: Local, max: nat, now: nat, later: nat)
    requires now <= later && Related(cfg, a, b, max, now)
    ensures Related(cfg, a, b, max, later)
  {
    IncludesLive(cfg.eviction, Live(a.entries, now), Live(b.entries, now), later);
    LocalExpiry.CleanTwice(a, now, later);
    LocalExpiry.CleanTwice(b, now, later);
    SubsetCardinality(Live(a.entries, later).Keys, Live(a.entries, now).Keys);
    SubsetCardinality(Live(b.entries, later).Keys, Live(b.entries, now).Keys);
  }

  lemma NewestIsNewest(strategy: Strategy, st: Local, now: nat, k: Key, e: Entry)
    requires Valid(st) && strategy != Lfu && Rank(strategy, e) == st.seq_
    ensures Newest(strategy, Live(st.entries, now), k, e)
  {
  }

  lemma InsertIncludes(cfg: Config, a: Local, b: Local, max: nat, k: Key, bytes: Bytes, expiresAt: nat, now: nat)
    requires cfg.eviction != Lfu && Valid(a) && Valid(b) && Related(cfg, a, b, max, now)
    ensures Includes(cfg.eviction,
                     Live(InsertStep(Bounded(cfg, max), a, k, bytes, expiresAt, now).0.entries, now),
                     Live(InsertStep(Bounded(cfg, max + 1), b, k, bytes, expiresAt, now).0.entries, now))
  {
    var ca, cb := Bounded(cfg, max), Bounded(cfg, max + 1);
    RoomsInclude(cfg, a, b, max, now);
    EvictionKeepsValid(ca, a, now);
    EvictionKeepsValid(cb, b, now);
    UpdateIncludes(cfg.eviction, a.(entries := EvictIfNeeded(ca, a.entries, now).0),
                   b.(entries := EvictIfNeeded(cb, b.entries, now).0), k, bytes, expiresAt, now);
  }

  lemma RoomsInclude(cfg: Config, a: Local, b: Local, max: nat, now: nat)
    requires cfg.eviction != Lfu && Valid(a) && Valid(b) && Related(cfg, a, b, max, now)
    ensures Includes(cfg.eviction, Live(EvictIfNeeded(Bounded(cfg, max), a.entries, now).0, now),
                     Live(EvictIfNeeded(Bounded(cfg, max + 1), b.entries, now).0, now))
  {
    var la, lb := Live(a.entries, now), Live(b.entries, now);
    LocalExpiry.LiveRoom(Bounded(cfg, max), a.entries, now);
    LocalExpiry.LiveRoom(Bounded(cfg, max + 1), b.entries, now);
    RoomIncludes(cfg.eviction, la, lb, max);
    LoopIsSqueeze(cfg.eviction, la, max);
    LoopIsSqueeze(cfg.eviction, lb, max + 1);
  }

  lemma UpdateIncludes(strategy: Strategy, a: Local, b: Local, k: Key, bytes: Bytes, expiresAt: nat, now: nat)
    requires strategy != Lfu && Valid(a) && Valid(b)
    requires Includes(strategy, Live(a.entries, now), Live(b.entries, now))
    ensures Includes(strategy, Live(a.entries[k := NewEntry(bytes, expiresAt, a.seq_)], now),
                     Live(b.entries[k := NewEntry(bytes, expiresAt, b.seq_)], now))
  {
    var x, y := NewEntry(bytes, expiresAt, a.seq_), NewEntry(bytes, expiresAt, b.seq_);
    LocalExpiry.LiveOfUpdate(a.entries, k, x, now);
    LocalExpiry.LiveOfUpdate(b.entries, k, y, now);
    if expiresAt > now {
      NewestIsNewest(strategy, a, now, k, x);
      NewestIsNewest(strategy, b, now, k, y);
      IncludesNewest(strategy, Live(a.entries, now), Live(b.entries, now), k, x, y);
    } else {
      IncludesRemove(strategy, Live(a.entries, now), Live(b.entries, now), k);
    }
  }

  lemma TouchIncludes(strategy: Strategy, a: Local, b: Local, k: Key, now: nat)
    requires strategy != Lfu && Valid(a) && Valid(b)
    requires Includes(strategy, Live(a.entries, now), Live(b.entries, now)) && k in Live(a.entries, now)
    ensures Includes(strategy, Live(a.entries[k := Touched(a.entries[k], a.seq_)], now),
                     Live(b.entries[k := Touched(b.entries[k], b.seq_)], now))
  {
    var la, lb := Live(a.entries, now), Live(b.entries, now);
    var x, y := Touched(a.entries[k], a.seq_), Touched(b.entries[k], b.seq_);
    LocalExpiry.LiveOfUpdate(a.entries, k, x, now);
    LocalExpiry.LiveOfUpdate(b.entries, k, y, now);
    if strategy == Lru {
      NewestIsNewest(Lru, a, now, k, x);
      NewestIsNewest(Lru, b, now, k, y);
      IncludesNewest(Lru, la, lb, k, x, y);
    } else {
      assert SameOrder(Fifo, la[k := x], lb[k := y]);
    }
  }

  lemma MissKeepsLive(m: Entries, k: Key, now: nat)
    requires k !in Live(m, now)
    ensures Live(m - {k}, now) == Live(m, now)
  {
  }

  /** A hit in the smaller backend is a hit, with the same bytes, in the larger one. */
  lemma GetIncludes(cfg: Config, a: Local, b: Local, max: nat, digest: string, now: nat)
    requires cfg.eviction != Lfu && Valid(a) && Valid(b) && Related(cfg, a, b, max, now)
    ensures GetStep(a, digest, now).1.value.Some? ==> GetStep(b, digest, now).1 == GetStep(a, digest, now).1
    ensures Includes(cfg.eviction, Live(GetStep(a, digest, now).0.entries, now),
                     Live(GetStep(b, digest, now).0.entries, now))
  {
    var k, la, lb := EntryKey(digest), Live(a.entries, now), Live(b.entries, now);
    var x, y := GetStep(a, digest, now).0.entries, GetStep(b, digest, now).0.entries;
    if k in la {
      TouchIncludes(cfg.eviction, a, b, k, now);
      assert x == a.entries[k := Touched(a.entries[k], a.seq_)];
      assert y == b.entries[k := Touched(b.entries[k], b.seq_)];
    } else {
      MissKeepsLive(a.entries, k, now);
      assert Live(x, now) == la;
      if k in lb {
        var e := Touched(b.entries[k], b.seq_);
        assert y == b.entries[k := e];
        LocalExpiry.LiveOfUpdate(b.entries, k, e, now);
        IncludesExtraTouch(cfg.eviction, la, lb, k, e);
      } else {
        MissKeepsLive(b.entries, k, now);
        assert Live(y, now) == lb;
      }
    }
  }

  lemma BumpIncludes(cfg: Config, a: Local, b: Local, max: nat, ns: string, now: nat)
    requires cfg.eviction != Lfu && Valid(a) && Valid(b) && Related(cfg, a, b, max, now)
    ensures BumpStep(Bounded(cfg, max), a, ns, now).0.generations
         == BumpStep(Bounded(cfg, max + 1), b, ns, now).0.generations
    ensures Includes(cfg.eviction, Live(BumpStep(Bounded(cfg, max), a, ns, now).0.entries, now),
                     Live(BumpStep(Bounded(cfg, max + 1), b, ns, now).0.entries, now))
  {
    var small, large := Bounded(cfg, max), Bounded(cfg, max + 1);
    var k, bytes := GenerationKey(cfg, ns), GenerationBytes(GenerationOf(a.generations, ns) + 1);
    InsertIncludes(cfg, a, b, max, k, bytes, U64_MAX, now);
    BumpInserts(small, a, ns, now);
    BumpInserts(large, b, ns, now);
    assert GenerationKey(small, ns) == k && GenerationKey(large, ns) == k;
    var x, y := BumpStep(small, a, ns, now).0.entries, BumpStep(large, b, ns, now).0.entries;
    assert x == InsertStep(small, a, k, bytes, U64_MAX, now).0.entries;
    assert y == InsertStep(large, b, k, bytes, U64_MAX, now).0.entries;
  }

  lemma PruneIncludes(cfg: Config, a: Local, b: Local, max: nat, now: nat)
    requires Valid(a) && Valid(b) && Related(cfg, a, b, max, now)
    ensures Includes(cfg.eviction, Live(Live(a.entries, now), now), Live(Live(b.entries, now), now))
  {
    LocalExpiry.CleanTwice(a, now, now);
    LocalExpiry.CleanTwice(b, now, now);
  }

  lemma StepSameGenerations(cfg: Config, a: Local, b: Local, max: nat, op: Op)
    requires Valid(a) && Valid(b) && a.generations == b.generations
    ensures Apply(Bounded(cfg, max), a, op).0.generations == Apply(Bounded(cfg, max + 1), b, op).0.generations
  {
  }

  lemma StepIncludes(cfg: Config, a: Local, b: Local, max: nat, op: Op)
    requires cfg.eviction != Lfu && Valid(a) && Valid(b) && Related(cfg, a, b, max, op.now)
    ensures Includes(cfg.eviction, Live(Apply(Bounded(cfg, max), a, op).0.entries, op.now),
                     Live(Apply(Bounded(cfg, max + 1), b, op).0.entries, op.now))
  {
    match op
    case Get(digest, now) => GetIncludes(cfg, a, b, max, digest, now);
    case Put(d, bytes, ttl, now) => InsertIncludes(cfg, a, b, max, EntryKey(d), bytes, ExpiryOf(now, ttl), now);
    case Generation(_, _) =>
    case Bump(ns, now) => BumpIncludes(cfg, a, b, max, ns, now);
    case Prune(now) => PruneIncludes(cfg, a, b, max, now);
  }

  lemma {:induction false} RunIncludes(cfg: Config, max: nat, trace: seq<Op>, now: nat)
    requires cfg.eviction != Lfu && Monotone(trace)
    requires forall i | 0 <= i < |trace| :: trace[i].now <= now
    ensures Related(cfg, Run(Bounded(cfg, max), EMPTY, trace).0, Run(Bounded(cfg, max + 1), EMPTY, trace).0, max, now)
  {
    var small, large := Bounded(cfg, max), Bounded(cfg, max + 1);
    if trace != [] {
      var shorter, op := trace[..|trace| - 1], trace[|trace| - 1];
      RunIncludes(cfg, max, shorter, op.now);
      StepSameGenerations(cfg, Run(small, EMPTY, shorter).0, Run(large, EMPTY, shorter).0, max, op);
      StepIncludes(cfg, Run(small, EMPTY, shorter).0, Run(large, EMPTY, shorter).0, max, op);
      var a, b := Run(small, EMPTY, trace).0, Run(large, EMPTY, trace).0;
      LocalContents.NeverOverCapacity(small, trace);
      LocalContents.NeverOverCapacity(large, trace);
      SubsetCardinality(Live(a.entries, op.now).Keys, a.entries.Keys);
      SubsetCardinality(Live(b.entries, op.now).Keys, b.entries.Keys);
      RelatedLater(cfg, a, b, max, op.now, now);
    } else {
      assert Live(map[], now) == map[];
    }
  }

  /** At bound `max`, the operation at position `i` is a read that answers `bytes`. */
  ghost predicate Hit(cfg: Config, max: nat, trace: seq<Op>, i: nat, bytes: Bytes) {
    i < |trace| && trace[i].Get? && Run(Bounded(cfg, max), EMPTY, trace).1[i] == Got(Some(bytes))
  }

  lemma OneMorePlace(cfg: Config, max: nat, trace: seq<Op>, i: nat, bytes: Bytes)
    requires cfg.eviction != Lfu && Monotone(trace) && Hit(cfg, max, trace, i, bytes)
    ensures Hit(cfg, max + 1, trace, i, bytes)
  {
    var a, b := Run(Bounded(cfg, max), EMPTY, trace[..i]).0, Run(Bounded(cfg, max + 1), EMPTY, trace[..i]).0;
    LocalContents.SeenAt(Bounded(cfg, max), trace, i);
    LocalContents.SeenAt(Bounded(cfg, max + 1), trace, i);
    RunIncludes(cfg, max, trace[..i], trace[i].now);
    GetIncludes(cfg, a, b, max, trace[i].digest, trace[i].now);
  }

  /**
   * Capacity inclusion: on the same trace every hit at bound `small` is a hit, with the same bytes, at any
   * larger bound, although overwriting a resident key at capacity evicts one entry too many.
   */
  lemma LargerNeverHurts(cfg: Config, small: nat, large: nat, trace: seq<Op>, i: nat, bytes: Bytes)
    requires cfg.eviction != Lfu && Monotone(trace) && small <= large
    requires Hit(cfg, small, trace, i, bytes)
    ensures Hit(cfg, large, trace, i, bytes)
  {
    for bound := small to large
      invariant Hit(cfg, bound, trace, i, bytes)
    {
      OneMorePlace(cfg, bound, trace, i, bytes);
    }
  }
}
