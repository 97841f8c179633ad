/** Whom LFU evicts: the least used, and among those the one inserted first; and how many leave. */
module LocalEviction {
  import opened Common
  import opened LocalModel
  import LocalContents

  // ------------------------------------------------------------------ one eviction

  /** Fewer uses, or as many and inserted earlier. */
  predicate UsedLess(a: Entry, b: Entry) {
    a.accesses < b.accesses || (a.accesses == b.accesses && a.insertSeq < b.insertSeq)
  }

  /** A sweep takes the same from everybody. */
  lemma SweepIsEven(m: Entries, k: Key)
    requires Distinct(m) && k in m
    ensures var low := m[Victim(Lfu, m)].accesses;
            Prepared(Lfu, m)[k] == m[k].(accesses := m[k].accesses - low) && low <= m[k].accesses
  {
    SweepKeepsOrder(m, Victim(Lfu, m));
  }

  lemma SomebodyLeaves(m: Entries, max: nat)
    requires Distinct(m) && EvictLoop(Lfu, m, max).1 != []
    ensures m != map[] && |m| >= max
  {
  }

  /** The first to leave is the victim; the others are those that leave the swept rest. */
  lemma FirstThenRest(m: Entries, max: nat)
    requires Distinct(m) && m != map[] && |m| >= max
    ensures var left := Prepared(Lfu, m) - {Victim(Lfu, m)};
            && Distinct(left) && left.Keys == m.Keys - {Victim(Lfu, m)} && |left| < |m|
            && Follows(EvictLoop(Lfu, m, max).1, Victim(Lfu, m), EvictLoop(Lfu, left, max).1)
  {
    EvictOneMore(Lfu, m, max);
    Prepends(Victim(Lfu, m), EvictLoop(Lfu, Prepared(Lfu, m) - {Victim(Lfu, m)}, max).1);
  }

  /** `later`, with `first` in front. */
  predicate Follows(evicted: seq<Key>, first: Key, later: seq<Key>) {
    && |evicted| == |later| + 1 && evicted[0] == first
    && forall x | 0 <= x < |later| :: evicted[x + 1] == later[x]
  }

  lemma Prepends(first: Key, later: seq<Key>)
    ensures Follows([first] + later, first, later)
  {
  }

  lemma SweptKeepOrder(m: Entries, a: Key, b: Key)
    requires Distinct(m) && m != map[] && a in m && b in m && UsedLess(Prepared(Lfu, m)[a], Prepared(Lfu, m)[b])
    ensures UsedLess(m[a], m[b])
  {
    SweepIsEven(m, a);
    SweepIsEven(m, b);
  }

  lemma VictimIsLeast(m: Entries, k: Key)
    requires Distinct(m) && k in m && k != Victim(Lfu, m)
    ensures UsedLess(m[Victim(Lfu, m)], m[k])
  {
  }

  /** Whoever leaves had been used less than whoever leaves later or stays. */
  ghost predicate LeastFirst(m: Entries, evicted: seq<Key>) {
    forall p | 0 <= p < |evicted| :: LeastAt(m, evicted, p)
  }

  ghost predicate LeastAt(m: Entries, evicted: seq<Key>, p: nat)
    requires p < |evicted|
  {
    evicted[p] in m && forall k | k in m && (forall x | 0 <= x <= p :: evicted[x] != k) :: UsedLess(m[evicted[p]], m[k])
  }

  lemma LeastOf(m: Entries, evicted: seq<Key>, p: nat, k: Key)
    requires LeastFirst(m, evicted) && p < |evicted| && k in m && forall x | 0 <= x <= p :: evicted[x] != k
    ensures evicted[p] in m && UsedLess(m[evicted[p]], m[k])
  {
    assert LeastAt(m, evicted, p);
  }

  lemma OneMoreAt(m: Entries, left: Entries, later: seq<Key>, evicted: seq<Key>, p: nat)
    requires Distinct(m) && m != map[] && left == Prepared(Lfu, m) - {Victim(Lfu, m)}
    requires left.Keys == m.Keys - {Victim(Lfu, m)} && p < |later| && LeastAt(left, later, p)
    requires Follows(evicted, Victim(Lfu, m), later)
    ensures LeastAt(m, evicted, p + 1)
  {
    assert later[p] in left;
    forall k | k in m && (forall x | 0 <= x <= p + 1 :: evicted[x] != k) ensures UsedLess(m[later[p]], m[k]) {
      assert evicted[0] != k && k in left;
      forall x | 0 <= x <= p ensures later[x] != k {
        assert evicted[x + 1] != k;
      }
      assert UsedLess(left[later[p]], left[k]);
      SweptKeepOrder(m, later[p], k);
    }
  }

  lemma OneMoreLeaves(m: Entries, left: Entries, later: seq<Key>, evicted: seq<Key>)
    requires Distinct(m) && m != map[] && left == Prepared(Lfu, m) - {Victim(Lfu, m)}
    requires left.Keys == m.Keys - {Victim(Lfu, m)} && LeastFirst(left, later)
    requires Follows(evicted, Victim(Lfu, m), later)
    ensures LeastFirst(m, evicted)
  {
    forall p | 0 <= p < |evicted| ensures LeastAt(m, evicted, p) {
      if p > 0 {
        assert LeastAt(left, later, p - 1);
        OneMoreAt(m, left, later, evicted, p - 1);
      } else {
        forall k | k in m && (forall x | 0 <= x <= 0 :: evicted[x] != k) ensures UsedLess(m[evicted[0]], m[k]) {
          assert evicted[0] != k;
          VictimIsLeast(m, k);
        }
      }
    }
  }

  lemma {:induction false} LeastUsedLeaveFirst(m: Entries, max: nat)
    requires Distinct(m)
    ensures LeastFirst(m, EvictLoop(Lfu, m, max).1)
    decreases |m|
  {
    if EvictLoop(Lfu, m, max).1 != [] {
      SomebodyLeaves(m, max);
      FirstThenRest(m, max);
      var left, evicted := Prepared(Lfu, m) - {Victim(Lfu, m)}, EvictLoop(Lfu, m, max).1;
      LeastUsedLeaveFirst(left, max);
      OneMoreLeaves(m, left, EvictLoop(Lfu, left, max).1, evicted);
    }
  }

  /** Under every policy, as many leave as it takes to fall below the bound, or everybody. */
  lemma {:induction false} JustEnoughLeave(strategy: Strategy, m: Entries, max: nat)
    requires Distinct(m)
    ensures |EvictLoop(strategy, m, max).1| == if |m| < max then 0 else |m| - (Max(1, max) - 1)
    decreases |m|
  {
    if !(|m| < max || m == map[]) {
      EvictOneMore(strategy, m, max);
      var left := Prepared(strategy, m) - {Victim(strategy, m)};
      assert |left.Keys| == |m.Keys| - 1;
      JustEnoughLeave(strategy, left, max);
    }
  }

  // ------------------------------------------------------------------------- age

  /** The key under which an operation inserts. */
  function InsertedKey(cfg: Config, op: Op): Option<Key> {
    match op
    case Put(digest, _, _, _) => Some(EntryKey(digest))
    case Bump(namespace, _) => Some(GenerationKey(cfg, namespace))
    case _ => None
  }

  predicate Inserts(cfg: Config, op: Op, k: Key) {
    InsertedKey(cfg, op).Some? && InsertedKey(cfg, op).value == k
  }

  /** Operation `j` is the last before `i` that inserted `k`. */
  ghost predicate LastInsertion(cfg: Config, trace: seq<Op>, k: Key, j: nat, i: nat)
    requires i <= |trace|
  {
    j < i && Inserts(cfg, trace[j], k) && forall x | j < x < i :: !Inserts(cfg, trace[x], k)
  }

  ghost function SeqAt(cfg: Config, trace: seq<Op>, i: nat): nat
    requires i <= |trace|
  {
    Run(cfg, EMPTY, trace[..i]).0.seq_
  }

  lemma OneMore(cfg: Config, trace: seq<Op>, i: nat)
    requires i < |trace|
    ensures Run(cfg, EMPTY, trace[..i + 1]).0 == Apply(cfg, Run(cfg, EMPTY, trace[..i]).0, trace[i]).0
  {
    assert trace[..i + 1][..i] == trace[..i];
  }

  /** An insertion takes the next number, and nothing takes one back. */
  lemma StepNumbers(cfg: Config, st: Local, op: Op)
    requires LocalModel.Valid(st)
    ensures st.seq_ <= Apply(cfg, st, op).0.seq_
    ensures InsertedKey(cfg, op).Some? ==> Apply(cfg, st, op).0.seq_ == st.seq_ + 1
  {
  }

  lemma NumbersStep(cfg: Config, trace: seq<Op>, i: nat)
    requires i < |trace|
    ensures SeqAt(cfg, trace, i) <= SeqAt(cfg, trace, i + 1)
    ensures InsertedKey(cfg, trace[i]).Some? ==> SeqAt(cfg, trace, i) < SeqAt(cfg, trace, i + 1)
  {
    OneMore(cfg, trace, i);
    StepNumbers(cfg, Run(cfg, EMPTY, trace[..i]).0, trace[i]);
  }

  lemma {:induction false} Grows(numbers: seq<nat>, j: nat, i: nat)
    requires j < i < |numbers| && numbers[j] < numbers[j + 1]
    requires forall x | 0 <= x < |numbers| - 1 :: numbers[x] <= numbers[x + 1]
    ensures numbers[j] < numbers[i]
    decreases i
  {
    if j + 1 < i {
      Grows(numbers, j, i - 1);
      assert numbers[i - 1] <= numbers[i - 1 + 1];
    }
  }

  lemma NumbersGrow(cfg: Config, trace: seq<Op>, j: nat, i: nat)
    requires j < i <= |trace| && InsertedKey(cfg, trace[j]).Some?
    ensures SeqAt(cfg, trace, j) < SeqAt(cfg, trace, i)
  {
    var numbers := seq(|trace| + 1, x requires 0 <= x <= |trace| => SeqAt(cfg, trace, x));
    forall x | 0 <= x < |trace| ensures numbers[x] <= numbers[x + 1] {
      NumbersStep(cfg, trace, x);
    }
    NumbersStep(cfg, trace, j);
    Grows(numbers, j, i);
  }

  /** An operation inserts its key with the next number; every other entry it leaves keeps its number. */
  lemma StepKeepsAges(cfg: Config, st: Local, op: Op, k: Key)
    requires LocalModel.Valid(st) && k in Apply(cfg, st, op).0.entries
    ensures var e := Apply(cfg, st, op).0.entries[k];
            if Inserts(cfg, op, k) then e.insertSeq == st.seq_
            else k in st.entries && e.insertSeq == st.entries[k].insertSeq
  {
  }

  ghost function EntriesAt(cfg: Config, trace: seq<Op>, i: nat): Entries
    requires i <= |trace|
  {
    Run(cfg, EMPTY, trace[..i]).0.entries
  }

  lemma AgesStep(cfg: Config, trace: seq<Op>, k: Key, i: nat)
    requires i < |trace| && k in EntriesAt(cfg, trace, i + 1)
    ensures var e := EntriesAt(cfg, trace, i + 1)[k];
            if Inserts(cfg, trace[i], k) then e.insertSeq == SeqAt(cfg, trace, i)
            else k in EntriesAt(cfg, trace, i) && e.insertSeq == EntriesAt(cfg, trace, i)[k].insertSeq
  {
    OneMore(cfg, trace, i);
    StepKeepsAges(cfg, Run(cfg, EMPTY, trace[..i]).0, trace[i], k);
  }

  /** Step `x` of a trace that passes through `maps`, with the counter at `numbers`, gives insertions their number. */
  ghost predicate AgesAt(cfg: Config, trace: seq<Op>, maps: seq<Entries>, numbers: seq<nat>, k: Key, x: nat)
    requires x < |trace| && |maps| == |numbers| == |trace| + 1
  {
    k in maps[x + 1] ==>
      if Inserts(cfg, trace[x], k) then maps[x + 1][k].insertSeq == numbers[x]
      else k in maps[x] && maps[x + 1][k].insertSeq == maps[x][k].insertSeq
  }

  lemma {:induction false} NumberIsAgeOf(
      cfg: Config, trace: seq<Op>, maps: seq<Entries>, numbers: seq<nat>, k: Key, i: nat)
    returns (j: nat)
    requires |maps| == |numbers| == |trace| + 1 && k !in maps[0]
    requires forall x | 0 <= x < |trace| :: AgesAt(cfg, trace, maps, numbers, k, x)
    requires i <= |trace| && k in maps[i]
    ensures LastInsertion(cfg, trace, k, j, i) && maps[i][k].insertSeq == numbers[j]
    decreases i
  {
    assert AgesAt(cfg, trace, maps, numbers, k, i - 1);
    if Inserts(cfg, trace[i - 1], k) {
      j := i - 1;
    } else {
      j := NumberIsAgeOf(cfg, trace, maps, numbers, k, i - 1);
    }
  }

  /** An entry's number is the one that its last insertion took. */
  lemma NumberIsAge(cfg: Config, trace: seq<Op>, k: Key, i: nat) returns (j: nat)
    requires i <= |trace| && k in EntriesAt(cfg, trace, i)
    ensures LastInsertion(cfg, trace, k, j, i)
    ensures EntriesAt(cfg, trace, i)[k].insertSeq == SeqAt(cfg, trace, j)
  {
    var maps := seq(|trace| + 1, x requires 0 <= x <= |trace| => EntriesAt(cfg, trace, x));
    var numbers := seq(|trace| + 1, x requires 0 <= x <= |trace| => SeqAt(cfg, trace, x));
    forall x | 0 <= x < |trace| ensures AgesAt(cfg, trace, maps, numbers, k, x) {
      if k in maps[x + 1] {
        AgesStep(cfg, trace, k, x);
      }
    }
    j := NumberIsAgeOf(cfg, trace, maps, numbers, k, i);
  }

  /** Of two entries the one with the lower number was inserted by an earlier operation. */
  lemma NumbersAreAges(cfg: Config, trace: seq<Op>, v: Key, k: Key, i: nat) returns (a: nat, b: nat)
    requires i <= |trace| && v in EntriesAt(cfg, trace, i) && k in EntriesAt(cfg, trace, i)
    ensures LastInsertion(cfg, trace, v, a, i) && LastInsertion(cfg, trace, k, b, i)
    ensures EntriesAt(cfg, trace, i)[v].insertSeq < EntriesAt(cfg, trace, i)[k].insertSeq <==> a < b
  {
    a := NumberIsAge(cfg, trace, v, i);
    b := NumberIsAge(cfg, trace, k, i);
    if a < b {
      NumbersGrow(cfg, trace, a, b);
    }
    if b < a {
      NumbersGrow(cfg, trace, b, a);
    }
  }

  // ---------------------------------------------------------------- over a trace

  /** The keys that the policy evicted in an operation. */
  function EvictedIn(seen: Seen): seq<Key> {
    match seen
    case Stored(evicted) => evicted
    case Bumped(_, evicted) => evicted
    case _ => []
  }

  lemma StepEvicts(cfg: Config, st: Local, op: Op)
    requires LocalModel.Valid(st) && cfg.eviction == Lfu
    ensures LeastFirst(Live(st.entries, op.now), EvictedIn(Apply(cfg, st, op).1))
  {
    LiveKeepsDistinct(st.entries, op.now);
    if EvictedIn(Apply(cfg, st, op).1) != [] {
      LeastUsedLeaveFirst(Live(st.entries, op.now), cfg.maxEntries.value);
    }
  }

  lemma EvictsAt(cfg: Config, trace: seq<Op>, i: nat)
    requires i < |trace| && cfg.eviction == Lfu
    ensures LeastFirst(Live(EntriesAt(cfg, trace, i), trace[i].now), EvictedIn(Run(cfg, EMPTY, trace).1[i]))
  {
    LocalContents.SeenAt(cfg, trace, i);
    StepEvicts(cfg, Run(cfg, EMPTY, trace[..i]).0, trace[i]);
  }

  /**
   * LFU over any trace: whoever is evicted was alive, and had been used less often than every live entry that
   * stays or leaves after it, or as often and inserted by an earlier operation.
   */
  lemma LfuEvictsLeastUsedThenOldest(cfg: Config, trace: seq<Op>, i: nat, p: nat, k: Key)
    returns (earlier: nat, later: nat)
    requires i < |trace| && cfg.eviction == Lfu
    requires p < |EvictedIn(Run(cfg, EMPTY, trace).1[i])|
    requires forall x | 0 <= x <= p :: EvictedIn(Run(cfg, EMPTY, trace).1[i])[x] != k
    requires k in EntriesAt(cfg, trace, i) && EntriesAt(cfg, trace, i)[k].expiresAt > trace[i].now
    ensures var m, v := EntriesAt(cfg, trace, i), EvictedIn(Run(cfg, EMPTY, trace).1[i])[p];
            && v in m && m[v].expiresAt > trace[i].now
            && LastInsertion(cfg, trace, v, earlier, i) && LastInsertion(cfg, trace, k, later, i)
            && m[v].accesses <= m[k].accesses
            && (m[v].accesses == m[k].accesses ==> earlier < later)
  {
    EvictsAt(cfg, trace, i);
    var evicted := EvictedIn(Run(cfg, EMPTY, trace).1[i]);
    LeastOf(Live(EntriesAt(cfg, trace, i), trace[i].now), evicted, p, k);
    earlier, later := NumbersAreAges(cfg, trace, evicted[p], k, i);
  }
  function LiveKeys(m: Entries, now: nat): set<Key> {
    set k | k in m && m[k].expiresAt > now
  }

  lemma StepMakesRoom(cfg: Config, st: Local, op: Op, max: nat)
    requires LocalModel.Valid(st) && cfg.maxEntries == Some(max) && InsertedKey(cfg, op).Some?
    ensures var live := |LiveKeys(st.entries, op.now)|;
            |EvictedIn(Apply(cfg, st, op).1)| ==
            if |st.entries| < max || live < max then 0 else live - (Max(1, max) - 1)
  {
    LiveKeepsDistinct(st.entries, op.now);
    assert Live(st.entries, op.now).Keys == LiveKeys(st.entries, op.now);
    JustEnoughLeave(cfg.eviction, Live(st.entries, op.now), max);
  }

  /**
   * Nobody leaves without need, under any policy: an insertion into a full map first drops what has expired,
   * and evicts only as many live entries as it takes to fall below the bound, or all of them.
   */
  lemma NobodyLeavesWithoutNeed(cfg: Config, trace: seq<Op>, i: nat, max: nat)
    requires i < |trace| && cfg.maxEntries == Some(max) && InsertedKey(cfg, trace[i]).Some?
    ensures var live := |LiveKeys(EntriesAt(cfg, trace, i), trace[i].now)|;
            |EvictedIn(Run(cfg, EMPTY, trace).1[i])| ==
            if |EntriesAt(cfg, trace, i)| < max || live < max then 0 else live - (Max(1, max) - 1)
  {
    LocalContents.SeenAt(cfg, trace, i);
    StepMakesRoom(cfg, Run(cfg, EMPTY, trace[..i]).0, trace[i], max);
  }
}
