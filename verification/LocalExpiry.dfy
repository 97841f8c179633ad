/** Clean-up of expired entries, whenever it happens, cannot be observed. */
module LocalExpiry {
  import opened Common
  import opened LocalModel

  /** The state as an immediate clean-up would leave it. */
  function Cleaned(st: Local, now: nat): Local {
    st.(entries := Live(st.entries, now))
  }

  lemma CleanTwice(st: Local, now: nat, later: nat)
    requires now <= later
    ensures Cleaned(Cleaned(st, now), later) == Cleaned(st, later)
  {
  }

  lemma AllAlive(m: Entries, now: nat)
    requires forall k | k in m :: m[k].expiresAt > now
    ensures Live(m, now) == m
  {
  }

  /** Seen through the live entries, making room is the eviction loop on the live entries and nothing else. */
  lemma LiveRoom(cfg: Config, m: Entries, now: nat)
    requires Distinct(m)
    ensures Distinct(Live(m, now))
    ensures cfg.maxEntries.None? ==> EvictIfNeeded(cfg, m, now) == (m, [])
    ensures cfg.maxEntries.Some? ==>
              var r := EvictLoop(cfg.eviction, Live(m, now), cfg.maxEntries.value);
              Live(EvictIfNeeded(cfg, m, now).0, now) == r.0 && EvictIfNeeded(cfg, m, now).1 == r.1
  {
    LiveKeepsDistinct(m, now);
    SubsetCardinality(Live(m, now).Keys, m.Keys);
    if cfg.maxEntries.Some? {
      var r := EvictLoop(cfg.eviction, Live(m, now), cfg.maxEntries.value).0;
      assert forall k | k in r :: r[k].expiresAt == Live(m, now)[k].expiresAt;
      AllAlive(r, now);
    }
  }

  /** Making room reaches the same live entries, and evicts the same keys, whether or not the dead are still there. */
  lemma EvictionIgnoresDead(cfg: Config, m: Entries, now: nat)
    requires Distinct(m)
    ensures Distinct(Live(m, now))
    ensures var a, b := EvictIfNeeded(cfg, m, now), EvictIfNeeded(cfg, Live(m, now), now);
            a.1 == b.1 && Live(a.0, now) == Live(b.0, now)
  {
    assert Live(Live(m, now), now) == Live(m, now);
    LiveRoom(cfg, m, now);
    LiveRoom(cfg, Live(m, now), now);
  }

  lemma GetIgnoresDead(st: Local, digest: string, now: nat)
    ensures GetStep(st, digest, now).1 == GetStep(Cleaned(st, now), digest, now).1
    ensures Cleaned(GetStep(st, digest, now).0, now) == Cleaned(GetStep(Cleaned(st, now), digest, now).0, now)
  {
  }

  lemma BumpIgnoresDead(cfg: Config, st: Local, ns: string, now: nat)
    requires Valid(st)
    ensures Valid(Cleaned(st, now))
    ensures BumpStep(cfg, st, ns, now).1 == BumpStep(cfg, Cleaned(st, now), ns, now).1
    ensures Cleaned(BumpStep(cfg, st, ns, now).0, now) == Cleaned(BumpStep(cfg, Cleaned(st, now), ns, now).0, now)
  {
    var g := GenerationOf(st.generations, ns) + 1;
    InsertIgnoresDead(cfg, st, GenerationKey(cfg, ns), GenerationBytes(g), U64_MAX, now);
  }

  /** One step is the same step from the cleaned state. */
  lemma StepIgnoresDead(cfg: Config, st: Local, op: Op)
    requires Valid(st)
    ensures Valid(Cleaned(st, op.now))
    ensures Apply(cfg, st, op).1 == Apply(cfg, Cleaned(st, op.now), op).1
    ensures Cleaned(Apply(cfg, st, op).0, op.now) == Cleaned(Apply(cfg, Cleaned(st, op.now), op).0, op.now)
  {
    var now := op.now;
    CleanTwice(st, now, now);
    match op
    case Get(d, _) => GetIgnoresDead(st, d, now);
    case Put(d, bytes, ttl, _) => InsertIgnoresDead(cfg, st, EntryKey(d), bytes, ExpiryOf(now, ttl), now);
    case Generation(_, _) =>
    case Bump(ns, _) => BumpIgnoresDead(cfg, st, ns, now);
    case Prune(_) =>
  }

  lemma InsertIgnoresDead(cfg: Config, st: Local, k: Key, bytes: Bytes, expiresAt: nat, now: nat)
    requires Valid(st)
    ensures Valid(Cleaned(st, now))
    ensures InsertStep(cfg, st, k, bytes, expiresAt, now).1
         == InsertStep(cfg, Cleaned(st, now), k, bytes, expiresAt, now).1
    ensures Cleaned(InsertStep(cfg, st, k, bytes, expiresAt, now).0, now)
         == Cleaned(InsertStep(cfg, Cleaned(st, now), k, bytes, expiresAt, now).0, now)
  {
    EvictionIgnoresDead(cfg, st.entries, now);
    var a, b := EvictIfNeeded(cfg, st.entries, now).0, EvictIfNeeded(cfg, Live(st.entries, now), now).0;
    var e := NewEntry(bytes, expiresAt, st.seq_);
    LiveOfUpdate(a, k, e, now);
    LiveOfUpdate(b, k, e, now);
  }

  lemma LiveOfUpdate(m: Entries, k: Key, e: Entry, now: nat)
    ensures Live(m[k := e], now) == if e.expiresAt > now then Live(m, now)[k := e] else Live(m, now) - {k}
  {
  }

  /** The trace without its clean-ups. */
  function Erase(trace: seq<Op>): seq<Op> {
    if trace == [] then [] else
      var op := trace[|trace| - 1];
      Erase(trace[..|trace| - 1]) + (if op.Prune? then [] else [op])
  }

  /** What callers saw: everything but the clean-ups. */
  function Visible(seen: seq<Seen>): seq<Seen> {
    if seen == [] then [] else
      var s := seen[|seen| - 1];
      Visible(seen[..|seen| - 1]) + (if s.Pruned? then [] else [s])
  }

  lemma {:induction false} ErasedRun(cfg: Config, trace: seq<Op>, now: nat)
    requires Monotone(trace)
    requires forall i | 0 <= i < |trace| :: trace[i].now <= now
    ensures var a, b := Run(cfg, EMPTY, trace), Run(cfg, EMPTY, Erase(trace));
            Cleaned(a.0, now) == Cleaned(b.0, now) && Visible(a.1) == b.1
  {
    if trace != [] {
      var shorter, op := trace[..|trace| - 1], trace[|trace| - 1];
      ErasedRun(cfg, shorter, op.now);
      var a, b := Run(cfg, EMPTY, shorter).0, Run(cfg, EMPTY, Erase(shorter)).0;
      StepIgnoresDead(cfg, a, op);
      CleanTwice(Apply(cfg, a, op).0, op.now, now);
      assert Run(cfg, EMPTY, trace).1[..|trace| - 1] == Run(cfg, EMPTY, shorter).1;
      if op.Prune? {
        CleanTwice(b, op.now, now);
        CleanTwice(a, op.now, now);
        assert Erase(trace) == Erase(shorter);
      } else {
        StepIgnoresDead(cfg, b, op);
        CleanTwice(Apply(cfg, b, op).0, op.now, now);
        assert Erase(trace)[..|Erase(trace)| - 1] == Erase(shorter);
      }
    }
  }

  /**
   * Two histories that differ only in when expired entries are cleaned up are indistinguishable: the same
   * answers, the same evicted keys and the same surviving entries, for every policy and every bound.
   */
  lemma CleanupIsUnobservable(cfg: Config, a: seq<Op>, b: seq<Op>, now: nat)
    requires Monotone(a) && Monotone(b) && Erase(a) == Erase(b)
    requires forall i | 0 <= i < |a| :: a[i].now <= now
    requires forall i | 0 <= i < |b| :: b[i].now <= now
    ensures Visible(Run(cfg, EMPTY, a).1) == Visible(Run(cfg, EMPTY, b).1)
    ensures Cleaned(Run(cfg, EMPTY, a).0, now) == Cleaned(Run(cfg, EMPTY, b).0, now)
  {
    ErasedRun(cfg, a, now);
    ErasedRun(cfg, b, now);
  }
}
