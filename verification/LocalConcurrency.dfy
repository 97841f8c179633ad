/**
 * The capacity bound when many `put` and `bump` calls run at once. The map is sharded: its length is summed,
 * and its entries are scanned, one shard after another, while anything may be inserted or removed.
 */
module LocalConcurrency {
  import opened Common
  import opened LocalModel

  /** The bound, and how keys are spread over the shards. */
  datatype Sharding = Sharding(max: nat, shards: nat, shardOf: Key -> nat)

  ghost predicate Valid(cfg: Sharding) {
    forall k :: cfg.shardOf(k) < cfg.shards
  }

  /** What a scan of the map is for: the first `len`, the `len` of the loop, or the policy's choice. */
  datatype Purpose = FirstLen | LoopLen | Choice

  /** Where a call stands in `evict_if_needed` and after it. A scan has counted the shards before `next`. */
  datatype Phase =
    | Arrived
    | Looping
    | Picking
    | Scanning(purpose: Purpose, next: nat, count: nat)
    | Removing(victim: Key)
    | Past
    | Gone

  datatype Caller = Caller(key: Key, phase: Phase)

  datatype Shared = Shared(keys: set<Key>, callers: seq<Caller>)

  const START := Shared({}, [])

  datatype Move =
    | Arrive(key: Key)
    | Start(c: nat)
    | Count(c: nat)                // one shard, under its lock
    | Finish(c: nat, victim: Key)  // the policy may settle on any key it has seen, gone or not
    | Remove(c: nat)
    | Insert(c: nat)
    | Lose(key: Key)               // retain, by a caller or in the background; lazy expiry in get

  predicate Ready(phase: Phase) {
    phase.Arrived? || phase.Looping? || phase.Picking?
  }

  predicate Enabled(cfg: Sharding, s: Shared, m: Move) {
    match m
    case Arrive(_) => true
    case Start(c) => c < |s.callers| && Ready(s.callers[c].phase)
    case Count(c) => c < |s.callers| && s.callers[c].phase.Scanning? && s.callers[c].phase.next < cfg.shards
    case Finish(c, _) => c < |s.callers| && s.callers[c].phase.Scanning? && s.callers[c].phase.next == cfg.shards
    case Remove(c) => c < |s.callers| && s.callers[c].phase.Removing?
    case Insert(c) => c < |s.callers| && s.callers[c].phase.Past?
    case Lose(_) => true
  }

  /** The keys of one shard. */
  function InShard(cfg: Sharding, keys: set<Key>, shard: nat): set<Key> {
    set k | k in keys && cfg.shardOf(k) == shard
  }

  function Counted(cfg: Sharding, keys: set<Key>, phase: Phase): Phase
    requires phase.Scanning?
  {
    phase.(next := phase.next + 1, count := phase.count + |InShard(cfg, keys, phase.next)|)
  }

  function Begun(phase: Phase): Phase
    requires Ready(phase)
  {
    Scanning(match phase case Arrived => FirstLen case Looping => LoopLen case _ => Choice, 0, 0)
  }

  /** What a call makes of its scan. */
  function Concluded(max: nat, phase: Phase, victim: Key): Phase
    requires phase.Scanning?
  {
    match phase.purpose
    case FirstLen => if phase.count < max then Past else Looping
    case LoopLen => if phase.count < max then Past else Picking
    case Choice => if phase.count == 0 then Past else Removing(victim)
  }

  function Put(s: Shared, c: nat, phase: Phase): Shared
    requires c < |s.callers|
  {
    s.(callers := s.callers[c := s.callers[c].(phase := phase)])
  }

  function Apply(cfg: Sharding, s: Shared, m: Move): Shared
    requires Enabled(cfg, s, m)
  {
    match m
    case Arrive(key) => s.(callers := s.callers + [Caller(key, Arrived)])
    case Start(c) => Put(s, c, Begun(s.callers[c].phase))
    case Count(c) => Put(s, c, Counted(cfg, s.keys, s.callers[c].phase))
    case Finish(c, victim) => Put(s, c, Concluded(cfg.max, s.callers[c].phase, victim))
    case Remove(c) => Put(s.(keys := s.keys - {s.callers[c].phase.victim}), c, Looping)
    case Insert(c) => Put(s.(keys := s.keys + {s.callers[c].key}), c, Gone)
    case Lose(key) => s.(keys := s.keys - {key})
  }

  // ---------------------------------------------------------------- the invariant

  /** Calls past `evict_if_needed` that have not inserted yet. */
  function PastOf(callers: seq<Caller>): set<nat> {
    set c | 0 <= c < |callers| && callers[c].phase.Past?
  }

  /** Calls under way. */
  function ActiveOf(callers: seq<Caller>): set<nat> {
    set c | 0 <= c < |callers| && !callers[c].phase.Gone?
  }

  function ScannersOf(callers: seq<Caller>): set<nat> {
    set c | 0 <= c < |callers| && callers[c].phase.Scanning?
  }

  function Unscanned(cfg: Sharding, keys: set<Key>, next: nat): set<Key> {
    set k | k in keys && next <= cfg.shardOf(k)
  }

  /** What a scan would come to if nothing changed any more. */
  function Reading(cfg: Sharding, keys: set<Key>, phase: Phase): nat
    requires phase.Scanning?
  {
    phase.count + |Unscanned(cfg, keys, phase.next)|
  }

  ghost predicate AllRead(cfg: Sharding, s: Shared, scans: set<nat>, b: nat) {
    forall c | c in scans ::
      c < |s.callers| && s.callers[c].phase.Scanning? && Reading(cfg, s.keys, s.callers[c].phase) <= b
  }

  ghost predicate Fits(n: nat, s: Shared, scans: set<nat>, b: nat) {
    |s.keys| + |PastOf(s.callers)| + |scans| <= b + n
  }

  /**
   * However far any scans have got: if none of them would come to more than `b`, at least what lets a call
   * pass, then entries, calls that have passed, and those scans together stay within `b + n`.
   */
  ghost predicate Inv(cfg: Sharding, n: nat, s: Shared) {
    forall scans: set<nat>, b: nat | Max(1, cfg.max) - 1 <= b && AllRead(cfg, s, scans, b) :: Fits(n, s, scans, b)
  }

  /** Calls that have passed and calls that scan are different calls under way. */
  lemma PastAndScans(cfg: Sharding, s: Shared, scans: set<nat>, b: nat)
    requires AllRead(cfg, s, scans, b)
    ensures |PastOf(s.callers)| + |scans| <= |ActiveOf(s.callers)|
  {
    var past := PastOf(s.callers);
    assert past * scans == {};
    assert past + scans <= ActiveOf(s.callers);
    SubsetCardinality(past + scans, ActiveOf(s.callers));
    assert |past + scans| == |past| + |scans|;
  }

  // ------------------------------------------------------------------ the moves

  lemma PastAfter(s: Shared, c: nat, phase: Phase)
    requires c < |s.callers|
    ensures PastOf(Put(s, c, phase).callers) ==
            if phase.Past? then PastOf(s.callers) + {c} else PastOf(s.callers) - {c}
  {
  }

  lemma UnscannedSplits(cfg: Sharding, keys: set<Key>, next: nat)
    ensures |Unscanned(cfg, keys, next)| == |InShard(cfg, keys, next)| + |Unscanned(cfg, keys, next + 1)|
  {
    assert Unscanned(cfg, keys, next) == InShard(cfg, keys, next) + Unscanned(cfg, keys, next + 1);
  }

  /** Removing a key lowers a reading by one at most; adding keys never lowers it. */
  lemma ReadingWithout(cfg: Sharding, keys: set<Key>, key: Key, phase: Phase)
    requires phase.Scanning?
    ensures Reading(cfg, keys, phase) <= Reading(cfg, keys - {key}, phase) + 1
    ensures Reading(cfg, keys, phase) <= Reading(cfg, keys + {key}, phase)
  {
    var a, b := Unscanned(cfg, keys, phase.next), Unscanned(cfg, keys - {key}, phase.next);
    assert a - {key} <= b;
    SubsetCardinality(a - {key}, b);
    SubsetCardinality(a, Unscanned(cfg, keys + {key}, phase.next));
  }

  /** A scan that starts now reads everything, so it is among the readings that `b` covers. */
  lemma StartKeeps(cfg: Sharding, n: nat, s: Shared, c: nat, scans: set<nat>, b: nat)
    requires Inv(cfg, n, s) && Enabled(cfg, s, Start(c)) && |ActiveOf(Apply(cfg, s, Start(c)).callers)| <= n
    requires Max(1, cfg.max) - 1 <= b && AllRead(cfg, Apply(cfg, s, Start(c)), scans, b)
    ensures Fits(n, Apply(cfg, s, Start(c)), scans, b)
  {
    var s' := Apply(cfg, s, Start(c));
    if c in scans {
      PastAndScans(cfg, s', scans, b);
      assert Unscanned(cfg, s.keys, 0) == s.keys;
      assert Reading(cfg, s'.keys, s'.callers[c].phase) == |s.keys|;
    } else {
      PastAfter(s, c, s'.callers[c].phase);
      assert PastOf(s'.callers) == PastOf(s.callers);
      assert AllRead(cfg, s, scans, b);
    }
  }

  lemma CountKeeps(cfg: Sharding, n: nat, s: Shared, c: nat, scans: set<nat>, b: nat)
    requires Inv(cfg, n, s) && Enabled(cfg, s, Count(c))
    requires Max(1, cfg.max) - 1 <= b && AllRead(cfg, Apply(cfg, s, Count(c)), scans, b)
    ensures Fits(n, Apply(cfg, s, Count(c)), scans, b)
  {
    var s' := Apply(cfg, s, Count(c));
    UnscannedSplits(cfg, s.keys, s.callers[c].phase.next);
    PastAfter(s, c, s'.callers[c].phase);
    assert PastOf(s'.callers) == PastOf(s.callers);
    assert AllRead(cfg, s, scans, b);
  }

  /** A call passes only on a reading that lets it, so its own scan could have been counted with the others. */
  lemma PassKeeps(cfg: Sharding, n: nat, s: Shared, s': Shared, c: nat, scans: set<nat>, b: nat)
    requires Valid(cfg) && Inv(cfg, n, s) && c < |s.callers| && s.callers[c].phase.Scanning?
    requires s.callers[c].phase.next == cfg.shards && s.callers[c].phase.count <= b && s' == Put(s, c, Past)
    requires Max(1, cfg.max) - 1 <= b && AllRead(cfg, s', scans, b)
    ensures Fits(n, s', scans, b)
  {
    PastAfter(s, c, Past);
    assert c !in scans && c !in PastOf(s.callers);
    assert Unscanned(cfg, s.keys, cfg.shards) == {};
    assert AllRead(cfg, s, scans + {c}, b);
    assert Fits(n, s, scans + {c}, b);
  }

  /** A call that goes back to evicting only takes its own scan out of the count. */
  lemma RetryKeeps(cfg: Sharding, n: nat, s: Shared, s': Shared, c: nat, phase: Phase, scans: set<nat>, b: nat)
    requires Inv(cfg, n, s) && c < |s.callers| && s.callers[c].phase.Scanning? && s' == Put(s, c, phase)
    requires !phase.Past? && !phase.Scanning?
    requires Max(1, cfg.max) - 1 <= b && AllRead(cfg, s', scans, b)
    ensures Fits(n, s', scans, b)
  {
    PastAfter(s, c, phase);
    assert PastOf(s'.callers) == PastOf(s.callers);
    assert AllRead(cfg, s, scans, b);
  }

  lemma FinishKeeps(cfg: Sharding, n: nat, s: Shared, c: nat, victim: Key, scans: set<nat>, b: nat)
    requires Valid(cfg) && Inv(cfg, n, s) && Enabled(cfg, s, Finish(c, victim))
    requires Max(1, cfg.max) - 1 <= b && AllRead(cfg, Apply(cfg, s, Finish(c, victim)), scans, b)
    ensures Fits(n, Apply(cfg, s, Finish(c, victim)), scans, b)
  {
    var s' := Apply(cfg, s, Finish(c, victim));
    var phase := Concluded(cfg.max, s.callers[c].phase, victim);
    if phase.Past? {
      PassKeeps(cfg, n, s, s', c, scans, b);
    } else {
      RetryKeeps(cfg, n, s, s', c, phase, scans, b);
    }
  }

  /** One entry less is one reading less at most. */
  lemma LoseKeeps(cfg: Sharding, n: nat, s: Shared, s': Shared, key: Key, scans: set<nat>, b: nat)
    requires Inv(cfg, n, s) && s'.keys == s.keys - {key} && |PastOf(s'.callers)| == |PastOf(s.callers)|
    requires forall c | c in ScannersOf(s'.callers) :: c < |s.callers| && s.callers[c].phase == s'.callers[c].phase
    requires Max(1, cfg.max) - 1 <= b && AllRead(cfg, s', scans, b)
    ensures Fits(n, s', scans, b)
  {
    var slack := if key in s.keys then 1 else 0;
    forall c | c in scans
      ensures c < |s.callers| && s.callers[c].phase.Scanning? && Reading(cfg, s.keys, s.callers[c].phase) <= b + slack
    {
      assert c in ScannersOf(s'.callers);
      ReadingWithout(cfg, s.keys, key, s.callers[c].phase);
      if key !in s.keys {
        assert s'.keys == s.keys;
      }
    }
    assert AllRead(cfg, s, scans, b + slack);
    assert Fits(n, s, scans, b + slack);
    assert |s.keys| == |s'.keys| + slack;
  }

  lemma RemoveKeeps(cfg: Sharding, n: nat, s: Shared, c: nat, scans: set<nat>, b: nat)
    requires Inv(cfg, n, s) && Enabled(cfg, s, Remove(c))
    requires Max(1, cfg.max) - 1 <= b && AllRead(cfg, Apply(cfg, s, Remove(c)), scans, b)
    ensures Fits(n, Apply(cfg, s, Remove(c)), scans, b)
  {
    var s' := Apply(cfg, s, Remove(c));
    PastAfter(s, c, Looping);
    assert PastOf(s'.callers) == PastOf(s.callers);
    LoseKeeps(cfg, n, s, s', s.callers[c].phase.victim, scans, b);
  }

  lemma InsertKeeps(cfg: Sharding, n: nat, s: Shared, c: nat, scans: set<nat>, b: nat)
    requires Inv(cfg, n, s) && Enabled(cfg, s, Insert(c))
    requires Max(1, cfg.max) - 1 <= b && AllRead(cfg, Apply(cfg, s, Insert(c)), scans, b)
    ensures Fits(n, Apply(cfg, s, Insert(c)), scans, b)
  {
    var s' := Apply(cfg, s, Insert(c));
    forall d | d in scans
      ensures d < |s.callers| && s.callers[d].phase.Scanning? && Reading(cfg, s.keys, s.callers[d].phase) <= b
    {
      assert s'.callers[d] == s.callers[d];
      ReadingWithout(cfg, s.keys, s.callers[c].key, s.callers[d].phase);
    }
    assert AllRead(cfg, s, scans, b);
    assert Fits(n, s, scans, b);
    PastAfter(s, c, Gone);
    assert PastOf(s'.callers) == PastOf(s.callers) - {c} && c in PastOf(s.callers);
    assert |s'.keys| <= |s.keys| + 1;
  }

  lemma ArriveKeeps(cfg: Sharding, n: nat, s: Shared, key: Key, scans: set<nat>, b: nat)
    requires Inv(cfg, n, s) && Max(1, cfg.max) - 1 <= b && AllRead(cfg, Apply(cfg, s, Arrive(key)), scans, b)
    ensures Fits(n, Apply(cfg, s, Arrive(key)), scans, b)
  {
    var s' := Apply(cfg, s, Arrive(key));
    assert PastOf(s'.callers) == PastOf(s.callers);
    assert AllRead(cfg, s, scans, b);
  }

  lemma StepKeeps(cfg: Sharding, n: nat, s: Shared, m: Move)
    requires Valid(cfg) && Enabled(cfg, s, m) && Inv(cfg, n, s) && |ActiveOf(Apply(cfg, s, m).callers)| <= n
    ensures Inv(cfg, n, Apply(cfg, s, m))
  {
    var s' := Apply(cfg, s, m);
    forall scans: set<nat>, b: nat | Max(1, cfg.max) - 1 <= b && AllRead(cfg, s', scans, b)
      ensures Fits(n, s', scans, b)
    {
      match m
      case Arrive(key) => ArriveKeeps(cfg, n, s, key, scans, b);
      case Start(c) => StartKeeps(cfg, n, s, c, scans, b);
      case Count(c) => CountKeeps(cfg, n, s, c, scans, b);
      case Finish(c, victim) => FinishKeeps(cfg, n, s, c, victim, scans, b);
      case Remove(c) => RemoveKeeps(cfg, n, s, c, scans, b);
      case Insert(c) => InsertKeeps(cfg, n, s, c, scans, b);
      case Lose(key) => LoseKeeps(cfg, n, s, s', key, scans, b);
    }
  }

  // ----------------------------------------------------------------------- runs

  ghost predicate StepsAt(cfg: Sharding, run: seq<Shared>, moves: seq<Move>, i: nat)
    requires i < |moves| < |run|
  {
    Enabled(cfg, run[i], moves[i]) && run[i + 1] == Apply(cfg, run[i], moves[i])
  }

  ghost predicate IsRun(cfg: Sharding, run: seq<Shared>, moves: seq<Move>) {
    |run| == |moves| + 1 && run[0] == START && forall i | 0 <= i < |moves| :: StepsAt(cfg, run, moves, i)
  }

  lemma InvAtStart(cfg: Sharding, n: nat)
    ensures Inv(cfg, n, START)
  {
    forall scans: set<nat>, b: nat | AllRead(cfg, START, scans, b) ensures Fits(n, START, scans, b) {
      PastAndScans(cfg, START, scans, b);
    }
  }

  lemma {:induction false} RunKeeps(cfg: Sharding, n: nat, run: seq<Shared>, moves: seq<Move>, i: nat)
    requires Valid(cfg) && IsRun(cfg, run, moves) && i < |run|
    requires forall j | 0 <= j <= i :: |ActiveOf(run[j].callers)| <= n
    ensures Inv(cfg, n, run[i])
  {
    if i == 0 {
      InvAtStart(cfg, n);
    } else {
      RunKeeps(cfg, n, run, moves, i - 1);
      assert StepsAt(cfg, run, moves, i - 1);
      StepKeeps(cfg, n, run[i - 1], moves[i - 1]);
    }
  }

  /**
   * Capacity under concurrency: as long as no more than `n` calls are under way at once, the entries and
   * the calls about to insert one never exceed the bound by more than `n - 1`, a bound of zero counting as
   * one, although no call ever sees the whole map at one moment. With one call at a time the entries stay
   * within the bound.
   */
  lemma CapacityUnderConcurrency(cfg: Sharding, n: nat, run: seq<Shared>, moves: seq<Move>, i: nat)
    requires Valid(cfg) && IsRun(cfg, run, moves) && i < |run|
    requires forall j | 0 <= j <= i :: |ActiveOf(run[j].callers)| <= n
    ensures |run[i].keys| + |PastOf(run[i].callers)| <= Max(1, cfg.max) - 1 + n
  {
    RunKeeps(cfg, n, run, moves, i);
    assert AllRead(cfg, run[i], {}, Max(1, cfg.max) - 1);
    assert Fits(n, run[i], {}, Max(1, cfg.max) - 1);
  }

  lemma RunGrows(cfg: Sharding, run: seq<Shared>, moves: seq<Move>, m: Move)
    requires IsRun(cfg, run, moves) && Enabled(cfg, run[|moves|], m)
    ensures IsRun(cfg, run + [Apply(cfg, run[|moves|], m)], moves + [m])
  {
    var run', moves' := run + [Apply(cfg, run[|moves|], m)], moves + [m];
    forall i | 0 <= i < |moves'| ensures StepsAt(cfg, run', moves', i) {
      if i < |moves| {
        assert StepsAt(cfg, run, moves, i);
      }
    }
  }

  // ------------------------------------------------------------------- progress

  /** Where a run has got to. */
  ghost function Last(run: seq<Shared>): Shared
    requires run != []
  {
    run[|run| - 1]
  }

  lemma Does(cfg: Sharding, run: seq<Shared>, moves: seq<Move>, m: Move)
    returns (run': seq<Shared>, moves': seq<Move>)
    requires IsRun(cfg, run, moves) && Enabled(cfg, Last(run), m)
    ensures IsRun(cfg, run', moves') && Last(run') == Apply(cfg, Last(run), m)
  {
    RunGrows(cfg, run, moves, m);
    run', moves' := run + [Apply(cfg, Last(run), m)], moves + [m];
  }

  lemma PutTwice(s: Shared, c: nat, a: Phase, b: Phase)
    requires c < |s.callers|
    ensures Put(Put(s, c, a), c, b) == Put(s, c, b)
  {
  }

  /** An undisturbed scan counts every key. */
  lemma Scans(cfg: Sharding, run: seq<Shared>, moves: seq<Move>, c: nat)
    returns (run': seq<Shared>, moves': seq<Move>)
    requires Valid(cfg) && IsRun(cfg, run, moves) && Enabled(cfg, Last(run), Start(c))
    ensures IsRun(cfg, run', moves')
    ensures var s := Last(run);
            Last(run') == Put(s, c, Scanning(Begun(s.callers[c].phase).purpose, cfg.shards, |s.keys|))
  {
    var s := Last(run);
    var purpose := Begun(s.callers[c].phase).purpose;
    run', moves' := Does(cfg, run, moves, Start(c));
    assert Unscanned(cfg, s.keys, 0) == s.keys;
    for n := 0 to cfg.shards
      invariant IsRun(cfg, run', moves') && |Unscanned(cfg, s.keys, n)| <= |s.keys|
      invariant Last(run') == Put(s, c, Scanning(purpose, n, |s.keys| - |Unscanned(cfg, s.keys, n)|))
    {
      UnscannedSplits(cfg, s.keys, n);
      var phase := Last(run').callers[c].phase;
      PutTwice(s, c, phase, Counted(cfg, s.keys, phase));
      run', moves' := Does(cfg, run', moves', Count(c));
    }
    assert Unscanned(cfg, s.keys, cfg.shards) == {};
  }

  /** ... and concludes accordingly. */
  lemma ScansThrough(cfg: Sharding, run: seq<Shared>, moves: seq<Move>, c: nat, victim: Key)
    returns (run': seq<Shared>, moves': seq<Move>)
    requires Valid(cfg) && IsRun(cfg, run, moves) && Enabled(cfg, Last(run), Start(c))
    ensures IsRun(cfg, run', moves')
    ensures var s := Last(run);
            var scanned := Scanning(Begun(s.callers[c].phase).purpose, cfg.shards, |s.keys|);
            Last(run') == Put(s, c, Concluded(cfg.max, scanned, victim))
  {
    var s := Last(run);
    var scanned := Scanning(Begun(s.callers[c].phase).purpose, cfg.shards, |s.keys|);
    run', moves' := Scans(cfg, run, moves, c);
    PutTwice(s, c, scanned, Concluded(cfg.max, scanned, victim));
    run', moves' := Does(cfg, run', moves', Finish(c, victim));
  }

  /** The loop of an undisturbed call evicts until the map is below the bound, or empty. */
  lemma {:induction false} EvictsUntilPast(cfg: Sharding, run: seq<Shared>, moves: seq<Move>, c: nat)
    returns (run': seq<Shared>, moves': seq<Move>)
    requires Valid(cfg) && IsRun(cfg, run, moves) && c < |Last(run).callers| && Last(run).callers[c].phase.Looping?
    ensures IsRun(cfg, run', moves') && Last(run').keys <= Last(run).keys && |Last(run').keys| <= Max(1, cfg.max) - 1
    ensures |Last(run').callers| == |Last(run).callers|
    ensures Last(run').callers[c] == Last(run).callers[c].(phase := Past)
    decreases |Last(run).keys|
  {
    var s := Last(run);
    run', moves' := ScansThrough(cfg, run, moves, c, s.callers[c].key);
    if |s.keys| >= cfg.max {
      var victim := if s.keys == {} then s.callers[c].key else var k :| k in s.keys; k;
      PutTwice(s, c, Picking, if s.keys == {} then Past else Removing(victim));
      run', moves' := ScansThrough(cfg, run', moves', c, victim);
      if s.keys != {} {
        run', moves' := Does(cfg, run', moves', Remove(c));
        assert Last(run').keys == s.keys - {victim};
        run', moves' := EvictsUntilPast(cfg, run', moves', c);
      }
    }
  }

  /**
   * Progress: from every reachable state, wherever the other calls stand, a newcomer that is left alone gets
   * through: it evicts until there is room, and nothing if there is, inserts its key, and leaves the map within
   * the bound.
   */
  lemma LoneCallGetsThrough(cfg: Sharding, run: seq<Shared>, moves: seq<Move>, key: Key)
    returns (run': seq<Shared>, moves': seq<Move>)
    requires Valid(cfg) && IsRun(cfg, run, moves)
    ensures IsRun(cfg, run', moves') && |Last(run').callers| == |Last(run).callers| + 1
    ensures Last(run').callers[|Last(run).callers|] == Caller(key, Gone)
    ensures |Last(run).keys| < cfg.max ==> Last(run').keys == Last(run).keys + {key}
    ensures key in Last(run').keys && Last(run').keys <= Last(run).keys + {key} && |Last(run').keys| <= Max(1, cfg.max)
  {
    var s, c := Last(run), |Last(run).callers|;
    run', moves' := Does(cfg, run, moves, Arrive(key));
    run', moves' := ScansThrough(cfg, run', moves', c, key);
    if |s.keys| >= cfg.max {
      run', moves' := EvictsUntilPast(cfg, run', moves', c);
    }
    var room := Last(run').keys;
    run', moves' := Does(cfg, run', moves', Insert(c));
    assert Last(run').keys == room + {key};
  }

  /** The overshoot is real: under a bound of one, two concurrent calls can leave two entries. */
  lemma TwoCallsOvershoot(cfg: Sharding, a: Key, b: Key) returns (run: seq<Shared>, moves: seq<Move>)
    requires Valid(cfg) && cfg.max == 1 && a != b
    ensures IsRun(cfg, run, moves) && |Last(run).keys| == 2
  {
    run, moves := Does(cfg, [START], [], Arrive(a));
    run, moves := ScansThrough(cfg, run, moves, 0, a);
    run, moves := Does(cfg, run, moves, Arrive(b));
    run, moves := ScansThrough(cfg, run, moves, 1, b);
    run, moves := Does(cfg, run, moves, Insert(0));
    run, moves := Does(cfg, run, moves, Insert(1));
    assert Last(run).keys == {a, b};
  }
}
