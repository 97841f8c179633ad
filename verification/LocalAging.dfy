/** LFU with its sweep is LFU without any sweep, where newcomers start at the last victim's priority. */
module LocalAging {
  import opened Common
  import opened LocalModel

  /**
   * The reference: priorities only ever grow. A hit adds one; a new entry starts at `floor`, the priority of
   * the last victim. The `accesses` field holds the priority.
   */
  datatype Reference = Reference(st: Local, floor: nat)

  const FRESH := Reference(EMPTY, 0)

  ghost predicate RefValid(ref: Reference) {
    && Distinct(ref.st.entries)
    && forall k | k in ref.st.entries ::
         ref.st.entries[k].insertSeq < ref.st.seq_ && ref.st.entries[k].lastAccess < ref.st.seq_
  }

  ghost function RefEvict(m: Entries, floor: nat, max: nat): (r: (Entries, seq<Key>, nat))
    requires Distinct(m)
    ensures Distinct(r.0) && forall k | k in r.0 :: k in m && r.0[k] == m[k]
    decreases |m|
  {
    if |m| < max || m == map[] then (m, [], floor)
    else
      var v := Victim(Lfu, m);
      assert (m - {v}).Keys == m.Keys - {v};
      var r := RefEvict(m - {v}, m[v].accesses, max);
      (r.0, [v] + r.1, r.2)
  }

  ghost function RefMakeRoom(cfg: Config, m: Entries, floor: nat, now: nat): (r: (Entries, seq<Key>, nat))
    requires Distinct(m)
    ensures Distinct(r.0) && forall k | k in r.0 :: k in m && r.0[k] == m[k]
  {
    if cfg.maxEntries.None? || |m| < cfg.maxEntries.value then (m, [], floor)
    else LiveKeepsDistinct(m, now); RefEvict(Live(m, now), floor, cfg.maxEntries.value)
  }

  ghost function RefInsert(cfg: Config, ref: Reference, k: Key, bytes: Bytes, expiresAt: nat, now: nat)
    : (r: (Reference, seq<Key>))
    requires RefValid(ref)
    ensures RefValid(r.0)
  {
    var room := RefMakeRoom(cfg, ref.st.entries, ref.floor, now);
    var e := Entry(bytes, expiresAt, ref.st.seq_, ref.st.seq_, room.2);
    (Reference(ref.st.(entries := room.0[k := e], seq_ := ref.st.seq_ + 1), room.2), room.1)
  }

  ghost function RefApply(cfg: Config, ref: Reference, op: Op): (r: (Reference, Seen))
    requires RefValid(ref)
    ensures RefValid(r.0)
  {
    var st := ref.st;
    match op
    case Get(digest, now) =>
      var k := EntryKey(digest);
      if k !in st.entries then (ref, Got(None))
      else if st.entries[k].expiresAt <= now then (ref.(st := st.(entries := st.entries - {k})), Got(None))
      else
        var e := st.entries[k].(lastAccess := st.seq_, accesses := st.entries[k].accesses + 1);
        (ref.(st := st.(entries := st.entries[k := e], seq_ := st.seq_ + 1)), Got(Some(e.bytes)))
    case Put(digest, bytes, ttlMs, now) =>
      var r := RefInsert(cfg, ref, EntryKey(digest), bytes, ExpiryOf(now, ttlMs), now);
      (r.0, Stored(r.1))
    case Generation(namespace, _) => (ref, Read(GenerationOf(st.generations, namespace)))
    case Bump(namespace, now) =>
      var g := GenerationOf(st.generations, namespace) + 1;
      var r := RefInsert(cfg, ref, GenerationKey(cfg, namespace), GenerationBytes(g), U64_MAX, now);
      (r.0.(st := r.0.st.(generations := st.generations[namespace := g])), Bumped(g, r.1))
    case Prune(now) => (ref.(st := st.(entries := Live(st.entries, now))), Pruned)
  }

  // --------------------------------------------------------------- simulation

  function Raised(e: Entry, total: nat): Entry {
    e.(accesses := e.accesses + total)
  }

  /** Every counter raised by `total`, all that the sweeps have subtracted so far. */
  function Lift(m: Entries, total: nat): Entries {
    map k | k in m :: Raised(m[k], total)
  }

  ghost predicate Matches(st: Local, ref: Reference) {
    ref.st == st.(entries := Lift(st.entries, ref.floor))
  }

  lemma LiftRemove(m: Entries, total: nat, k: Key)
    ensures Lift(m - {k}, total) == Lift(m, total) - {k}
  {
  }

  lemma LiftUpdate(m: Entries, total: nat, k: Key, e: Entry)
    ensures Lift(m[k := e], total) == Lift(m, total)[k := Raised(e, total)]
  {
  }

  lemma LiftLive(m: Entries, total: nat, now: nat)
    ensures Live(Lift(m, total), now) == Lift(Live(m, now), total)
  {
  }

  lemma LiftSize(m: Entries, total: nat)
    ensures Lift(m, total).Keys == m.Keys && |Lift(m, total)| == |m|
    ensures Distinct(m) ==> Distinct(Lift(m, total))
  {
  }

  lemma LiftKeepsVictim(m: Entries, total: nat)
    requires Distinct(m) && m != map[]
    ensures Distinct(Lift(m, total)) && Lift(m, total) != map[]
    ensures Victim(Lfu, Lift(m, total)) == Victim(Lfu, m)
  {
    LiftSize(m, total);
    var v := Victim(Lfu, m);
    assert v in Lift(m, total);
    assert IsVictim(Lfu, Lift(m, total), v);
    VictimIsUnique(Lfu, Lift(m, total), v, Victim(Lfu, Lift(m, total)));
  }

  /** A sweep and the growth of the total cancel out, because the sweep never subtracts more than a counter holds. */
  lemma SweepCancels(m: Entries, total: nat)
    requires m != map[] && Distinct(m)
    ensures var low := m[Victim(Lfu, m)].accesses;
            && (forall k | k in m :: low <= m[k].accesses)
            && Lift(Sweep(m, low), total + low) == Lift(m, total)
  {
  }

  /** One eviction on each side keeps the two maps a lift apart. */
  lemma AgeOnce(m: Entries, total: nat)
    requires m != map[] && Distinct(m)
    ensures var v, lifted := Victim(Lfu, m), Lift(m, total);
            && Distinct(lifted) && lifted != map[] && Victim(Lfu, lifted) == v
            && lifted[v].accesses == total + m[v].accesses
            && Distinct(Prepared(Lfu, m) - {v})
            && lifted - {v} == Lift(Prepared(Lfu, m) - {v}, total + m[v].accesses)
  {
    LiftKeepsVictim(m, total);
    SweepCancels(m, total);
    PreparedKeepsOrder(Lfu, m);
    LiftRemove(Prepared(Lfu, m), total + m[Victim(Lfu, m)].accesses, Victim(Lfu, m));
  }

  lemma {:induction false} EvictMatches(m: Entries, total: nat, max: nat)
    requires Distinct(m)
    ensures Distinct(Lift(m, total))
    ensures EvictLoop(Lfu, m, max).1 == RefEvict(Lift(m, total), total, max).1
    ensures RefEvict(Lift(m, total), total, max).0
         == Lift(EvictLoop(Lfu, m, max).0, RefEvict(Lift(m, total), total, max).2)
    decreases |m|
  {
    LiftSize(m, total);
    if m == map[] {
      assert Lift(m, total) == map[];
    } else if |m| >= max {
      AgeOnce(m, total);
      EvictOneMore(Lfu, m, max);
      RefEvictOneMore(Lift(m, total), total, max);
      EvictMatches(Prepared(Lfu, m) - {Victim(Lfu, m)}, total + m[Victim(Lfu, m)].accesses, max);
    }
  }

  lemma RefEvictOneMore(m: Entries, floor: nat, max: nat)
    requires Distinct(m) && m != map[] && |m| >= max
    ensures var v := Victim(Lfu, m);
            && Distinct(m - {v})
            && var r := RefEvict(m - {v}, m[v].accesses, max);
               RefEvict(m, floor, max) == (r.0, [v] + r.1, r.2)
  {
    assert (m - {Victim(Lfu, m)}).Keys == m.Keys - {Victim(Lfu, m)};
  }

  lemma RoomMatches(cfg: Config, m: Entries, total: nat, now: nat)
    requires cfg.eviction == Lfu && Distinct(m)
    ensures Distinct(Lift(m, total))
    ensures EvictIfNeeded(cfg, m, now).1 == RefMakeRoom(cfg, Lift(m, total), total, now).1
    ensures RefMakeRoom(cfg, Lift(m, total), total, now).0
         == Lift(EvictIfNeeded(cfg, m, now).0, RefMakeRoom(cfg, Lift(m, total), total, now).2)
  {
    LiftSize(m, total);
    if cfg.maxEntries.Some? {
      LiftLive(m, total, now);
      LiveKeepsDistinct(m, now);
      EvictMatches(Live(m, now), total, cfg.maxEntries.value);
    }
  }

  lemma InsertMatches(cfg: Config, st: Local, ref: Reference, k: Key, bytes: Bytes, expiresAt: nat, now: nat)
    requires cfg.eviction == Lfu && Valid(st) && Matches(st, ref) && RefValid(ref)
    ensures Matches(InsertStep(cfg, st, k, bytes, expiresAt, now).0, RefInsert(cfg, ref, k, bytes, expiresAt, now).0)
    ensures InsertStep(cfg, st, k, bytes, expiresAt, now).1 == RefInsert(cfg, ref, k, bytes, expiresAt, now).1
  {
    RoomMatches(cfg, st.entries, ref.floor, now);
    LiftUpdate(EvictIfNeeded(cfg, st.entries, now).0, RefMakeRoom(cfg, ref.st.entries, ref.floor, now).2, k,
               NewEntry(bytes, expiresAt, st.seq_));
  }

  lemma HitMatches(cfg: Config, st: Local, ref: Reference, k: Key, now: nat)
    requires Matches(st, ref) && k in st.entries && st.entries[k].accesses < U64_MAX
    ensures var e := ref.st.entries[k].(lastAccess := st.seq_, accesses := ref.st.entries[k].accesses + 1);
            k in ref.st.entries &&
            Lift(st.entries[k := Touched(st.entries[k], st.seq_)], ref.floor) == ref.st.entries[k := e]
  {
    LiftUpdate(st.entries, ref.floor, k, Touched(st.entries[k], st.seq_));
  }

  lemma GetMatches(cfg: Config, st: Local, ref: Reference, digest: string, now: nat)
    requires Valid(st) && Matches(st, ref) && RefValid(ref)
    requires forall k | k in st.entries :: st.entries[k].accesses < U64_MAX
    ensures Matches(GetStep(st, digest, now).0, RefApply(cfg, ref, Get(digest, now)).0)
    ensures GetStep(st, digest, now).1 == RefApply(cfg, ref, Get(digest, now)).1
  {
    var k := EntryKey(digest);
    if k in st.entries {
      if st.entries[k].expiresAt > now {
        HitMatches(cfg, st, ref, k, now);
      } else {
        LiftRemove(st.entries, ref.floor, k);
      }
    }
  }

  lemma BumpMatches(cfg: Config, st: Local, ref: Reference, ns: string, now: nat)
    requires cfg.eviction == Lfu && Valid(st) && Matches(st, ref) && RefValid(ref)
    ensures Matches(BumpStep(cfg, st, ns, now).0, RefApply(cfg, ref, Bump(ns, now)).0)
    ensures BumpStep(cfg, st, ns, now).1 == RefApply(cfg, ref, Bump(ns, now)).1
  {
    var g := GenerationOf(st.generations, ns) + 1;
    InsertMatches(cfg, st, ref, GenerationKey(cfg, ns), GenerationBytes(g), U64_MAX, now);
  }

  lemma StepMatches(cfg: Config, st: Local, ref: Reference, op: Op)
    requires cfg.eviction == Lfu && Valid(st) && Matches(st, ref) && RefValid(ref)
    requires forall k | k in st.entries :: st.entries[k].accesses < U64_MAX
    ensures Matches(Apply(cfg, st, op).0, RefApply(cfg, ref, op).0)
    ensures Apply(cfg, st, op).1 == RefApply(cfg, ref, op).1
  {
    LiftSize(st.entries, ref.floor);
    match op
    case Get(digest, now) => GetMatches(cfg, st, ref, digest, now);
    case Put(d, bytes, ttl, now) => InsertMatches(cfg, st, ref, EntryKey(d), bytes, ExpiryOf(now, ttl), now);
    case Generation(_, _) =>
    case Bump(ns, now) => BumpMatches(cfg, st, ref, ns, now);
    case Prune(now) => LiftLive(st.entries, ref.floor, now);
  }

  ghost function RefRun(cfg: Config, trace: seq<Op>): (r: (Reference, seq<Seen>))
    ensures RefValid(r.0) && |r.1| == |trace|
  {
    if trace == [] then (FRESH, []) else
      var r := RefRun(cfg, trace[..|trace| - 1]);
      var s := RefApply(cfg, r.0, trace[|trace| - 1]);
      (s.0, r.1 + [s.1])
  }

  /**
   * Aging equivalence: over any trace shorter than 2^64 operations, the backend with its sweep answers, and
   * evicts, exactly what the sweep-free reference does; each counter plus the total subtracted is that
   * entry's priority, and the total is the priority of the last victim.
   */
  lemma {:induction false} SweepIsInvisible(cfg: Config, trace: seq<Op>)
    requires cfg.eviction == Lfu && |trace| <= U64_MAX
    ensures Run(cfg, EMPTY, trace).1 == RefRun(cfg, trace).1
    ensures Matches(Run(cfg, EMPTY, trace).0, RefRun(cfg, trace).0)
  {
    if trace == [] {
      assert Lift(map[], 0) == map[];
    } else {
      var shorter := trace[..|trace| - 1];
      SweepIsInvisible(cfg, shorter);
      CountersStaySmall(cfg, shorter);
      StepMatches(cfg, Run(cfg, EMPTY, shorter).0, RefRun(cfg, shorter).0, trace[|trace| - 1]);
    }
  }
}
