/** The keys that the calls of a run look up, and when their digests tell them apart. */
module ProtocolKeys {
  import opened Common
  import opened CacheKeys
  import opened Protocol
  import opened ProtocolMetrics

  function Canonical(cfg: Config, input: CacheKeyInput): Bytes {
    match cfg.parse(input.sql) case Some(m) => m.canonicalSql case None => []
  }

  /** Inputs that parse and fit in memory. */
  ghost predicate Keyable(cfg: Config, input: CacheKeyInput) {
    cfg.parse(input.sql).Some? && AddressableInput(input, Canonical(cfg, input))
  }

  /** The same query, up to the canonical form of its SQL and the default tenant. */
  ghost predicate SameAnswer(cfg: Config, a: CacheKeyInput, b: CacheKeyInput) {
    a == b || SameQuery(a, Canonical(cfg, a), b, Canonical(cfg, b))
  }

  /** The call has asked the backend for its key. */
  predicate HasLookedUp(task: Task) {
    task.tally.hits + task.tally.misses > 0
  }

  ghost predicate IsKeyOf(task: Task, query: CacheKeyInput, generation: nat) {
    HasLookedUp(task) && task.request == query && task.generation == generation
  }

  /** Some call has looked this key up. */
  ghost predicate KeyInUse(tasks: seq<Task>, query: CacheKeyInput, generation: nat) {
    exists t | 0 <= t < |tasks| :: IsKeyOf(tasks[t], query, generation)
  }

  /** Two calls with one digest ask the same query at the same generation. */
  ghost predicate ToldApart(cfg: Config, a: Task, b: Task) {
    Digest(cfg, a) == Digest(cfg, b) ==> a.generation == b.generation && SameAnswer(cfg, a.request, b.request)
  }

  /** No two keys in use collide. Nothing is asked of keys that no call has looked up. */
  ghost predicate NoCollision(cfg: Config, tasks: seq<Task>) {
    forall t, u | 0 <= t < |tasks| && 0 <= u < |tasks| && HasLookedUp(tasks[t]) && HasLookedUp(tasks[u]) ::
      ToldApart(cfg, tasks[t], tasks[u])
  }

  // ------------------------------------------------------------ keys stay in use

  /** A key once looked up is the call's key for good. */
  lemma KeyStays(cfg: Config, s: State, e: Event, u: TaskId)
    requires MetricsInv(s) && Enabled(cfg, s, e) && u < |s.tasks| && HasLookedUp(s.tasks[u])
    ensures var tasks := Apply(cfg, s, e).tasks;
            u < |tasks| && IsKeyOf(tasks[u], s.tasks[u].request, s.tasks[u].generation)
  {
    assert TallyOk(s.tasks[u]);
  }

  lemma KeysStayInUse(cfg: Config, s: State, e: Event, query: CacheKeyInput, generation: nat)
    requires MetricsInv(s) && Enabled(cfg, s, e) && KeyInUse(s.tasks, query, generation)
    ensures KeyInUse(Apply(cfg, s, e).tasks, query, generation)
  {
    var t :| 0 <= t < |s.tasks| && IsKeyOf(s.tasks[t], query, generation);
    KeyStays(cfg, s, e, t);
  }

  lemma NoCollisionBefore(cfg: Config, s: State, e: Event)
    requires MetricsInv(s) && Enabled(cfg, s, e) && NoCollision(cfg, Apply(cfg, s, e).tasks)
    ensures NoCollision(cfg, s.tasks)
  {
    var s' := Apply(cfg, s, e);
    forall t, u | 0 <= t < |s.tasks| && 0 <= u < |s.tasks| && HasLookedUp(s.tasks[t]) && HasLookedUp(s.tasks[u])
      ensures ToldApart(cfg, s.tasks[t], s.tasks[u])
    {
      KeyStays(cfg, s, e, t);
      KeyStays(cfg, s, e, u);
      assert ToldApart(cfg, s'.tasks[t], s'.tasks[u]);
    }
  }

  /** Keys that do not collide by the end have not collided on the way. */
  lemma {:induction false} NoCollisionEarlier(cfg: Config, run: seq<State>, events: seq<Event>, j: nat, i: nat)
    requires IsRun(cfg, run, events) && j <= i < |run| && NoCollision(cfg, run[i].tasks)
    ensures NoCollision(cfg, run[j].tasks)
    decreases i
  {
    if j < i {
      RunKeepsMetrics(cfg, run, events, i - 1);
      assert StepsAt(cfg, run, events, i - 1);
      NoCollisionBefore(cfg, run[i - 1], events[i - 1]);
      NoCollisionEarlier(cfg, run, events, j, i - 1);
    }
  }

  // -------------------------------------------------------------------- hashing

  /** Runs a machine can perform: fewer than 2^64 events, and requests that fit in memory. */
  ghost predicate Physical(cfg: Config, events: seq<Event>) {
    && |events| <= U64_MAX
    && forall i | 0 <= i < |events| && events[i].Begin? && cfg.parse(events[i].request.sql).Some? ::
         Keyable(cfg, events[i].request)
  }

  /** The call bypasses the cache, or its request can be keyed; its generation is one of those so far. */
  ghost predicate KeyOk(cfg: Config, task: Task, events: nat) {
    && (HasLookedUp(task) || task.phase.ReadGeneration? || task.phase.Lookup? ==> Keyable(cfg, task.request))
    && task.generation <= events
  }

  lemma OneFloorAtATime(cfg: Config, s: State, e: Event)
    requires Enabled(cfg, s, e)
    ensures forall ns :: Generation(Apply(cfg, s, e).world, ns) <= Generation(s.world, ns) + 1
  {
  }

  lemma {:induction false} GenerationsStaySmall(cfg: Config, run: seq<State>, events: seq<Event>, i: nat)
    requires IsRun(cfg, run, events) && i < |run|
    ensures forall ns :: Generation(run[i].world, ns) <= i
  {
    if i > 0 {
      GenerationsStaySmall(cfg, run, events, i - 1);
      assert StepsAt(cfg, run, events, i - 1);
      OneFloorAtATime(cfg, run[i - 1], events[i - 1]);
    }
  }

  lemma StepKeepsKeysOk(cfg: Config, s: State, e: Event, n: nat)
    requires Enabled(cfg, s, e) && MetricsInv(s) && forall ns :: Generation(s.world, ns) <= n
    requires forall t | 0 <= t < |s.tasks| :: KeyOk(cfg, s.tasks[t], n)
    requires e.Begin? && cfg.parse(e.request.sql).Some? ==> Keyable(cfg, e.request)
    ensures var tasks := Apply(cfg, s, e).tasks; forall t | 0 <= t < |tasks| :: KeyOk(cfg, tasks[t], n + 1)
  {
    match e
    case Call(t, a) =>
      assert TallyOk(s.tasks[t]) && KeyOk(cfg, s.tasks[t], n);
      assert Generation(s.world, s.tasks[t].request.namespace) <= n;
    case _ =>
  }

  lemma {:induction false} KeysAreOk(cfg: Config, run: seq<State>, events: seq<Event>, i: nat)
    requires IsRun(cfg, run, events) && Physical(cfg, events) && i < |run|
    ensures forall t | 0 <= t < |run[i].tasks| :: KeyOk(cfg, run[i].tasks[t], i)
  {
    if i > 0 {
      KeysAreOk(cfg, run, events, i - 1);
      RunKeepsMetrics(cfg, run, events, i - 1);
      GenerationsStaySmall(cfg, run, events, i - 1);
      assert StepsAt(cfg, run, events, i - 1);
      StepKeepsKeysOk(cfg, run[i - 1], events[i - 1], i - 1);
    }
  }

  function PreimageOf(cfg: Config, task: Task): Bytes {
    Preimage(task.request, Canonical(cfg, task.request), task.generation)
  }

  /** The digest is a hash of the key preimage. */
  ghost predicate IsHashed(cfg: Config, hash: Bytes -> string) {
    forall a, g: nat :: cfg.digest(a, g) == hash(Preimage(a, Canonical(cfg, a), g))
  }

  /** The hash has no collision among the preimages of the keys in use. */
  ghost predicate HashSeparates(cfg: Config, hash: Bytes -> string, tasks: seq<Task>) {
    forall t, u | 0 <= t < |tasks| && 0 <= u < |tasks| && HasLookedUp(tasks[t]) && HasLookedUp(tasks[u]) ::
      hash(PreimageOf(cfg, tasks[t])) == hash(PreimageOf(cfg, tasks[u])) ==>
        PreimageOf(cfg, tasks[t]) == PreimageOf(cfg, tasks[u])
  }

  /**
   * Hashed keys do not collide as long as the hash does not, on the preimages that the run has hashed. Any
   * fixed-width hash may be meant: nothing is asked of it elsewhere.
   */
  lemma HashedKeysDoNotCollide(cfg: Config, hash: Bytes -> string, run: seq<State>, events: seq<Event>, i: nat)
    requires IsRun(cfg, run, events) && Physical(cfg, events) && i < |run|
    requires IsHashed(cfg, hash) && HashSeparates(cfg, hash, run[i].tasks)
    ensures NoCollision(cfg, run[i].tasks)
  {
    var tasks := run[i].tasks;
    KeysAreOk(cfg, run, events, i);
    forall t, u | 0 <= t < |tasks| && 0 <= u < |tasks| && HasLookedUp(tasks[t]) && HasLookedUp(tasks[u])
      ensures ToldApart(cfg, tasks[t], tasks[u])
    {
      var a, b := tasks[t], tasks[u];
      assert KeyOk(cfg, a, i) && KeyOk(cfg, b, i);
      if Digest(cfg, a) == Digest(cfg, b) {
        assert PreimageOf(cfg, a) == PreimageOf(cfg, b);
        PreimageIdentifiesQuery(a.request, Canonical(cfg, a.request), a.generation,
                                b.request, Canonical(cfg, b.request), b.generation);
      }
    }
  }
}
