/** The generation fence: a call that begins after an invalidation returned never sees older data. */
module ProtocolFence {
  import opened Common
  import opened CacheKeys
  import opened Protocol
  import opened ProtocolKeys
  import opened ProtocolMetrics

  // ---------------------------------------------------------------- invariants

  /** The database version at which generation `g` began. */
  function FloorAt(w: World, namespace: Bytes, g: nat): nat
    requires g <= Generation(w, namespace)
  {
    if g == 0 then 0 else Floors(w, namespace)[g - 1]
  }

  function CurrentFloor(w: World, namespace: Bytes): nat {
    FloorAt(w, namespace, Generation(w, namespace))
  }

  ghost predicate WriterOk(w: World, writer: Writer) {
    && writer.commit <= w.database
    && (writer.phase.Bumped? ==> writer.commit <= CurrentFloor(w, writer.namespace))
    && (writer.phase.Acknowledged? ==> writer.commit <= AcknowledgedCommit(w, writer.namespace))
  }

  /** Floors only rise, and every acknowledged commit lies at or below the current floor. */
  ghost predicate WorldInv(w: World) {
    && (forall ns, i, j | 0 <= i <= j < |Floors(w, ns)| :: Floors(w, ns)[i] <= Floors(w, ns)[j] <= w.database)
    && (forall ns :: AcknowledgedCommit(w, ns) <= CurrentFloor(w, ns))
    && (forall i | 0 <= i < |w.writers| :: WriterOk(w, w.writers[i]))
  }

  /** What was read while generation `g` was current is at least as new as its floor. */
  ghost predicate ReadSince(w: World, namespace: Bytes, g: nat, readAt: nat) {
    g <= Generation(w, namespace) && FloorAt(w, namespace, g) <= readAt <= w.database
  }

  /** An entry sits under the digest of its own key, which some call looked up, and was loaded in that generation. */
  ghost predicate EntryOk(cfg: Config, w: World, tasks: seq<Task>, d: string, env: Envelope) {
    var q := env.payload.query;
    && KeyInUse(tasks, q, env.generation) && d == cfg.digest(q, env.generation)
    && ReadSince(w, q.namespace, env.generation, env.payload.readAt)
  }

  ghost predicate BackendInv(cfg: Config, w: World, tasks: seq<Task>, backend: Backend) {
    && (forall d | d in backend.store && backend.store[d].Sealed? ::
          EntryOk(cfg, w, tasks, d, backend.store[d].envelope))
    && (forall x | x in backend.late :: EntryOk(cfg, w, tasks, x.0, x.1))
  }

  /** The call has read its generation. */
  predicate Keyed(p: Phase) {
    p.Lookup? || p.Join? || HoldsArc(p)
  }

  ghost predicate TaskOk(cfg: Config, w: World, task: Task) {
    var ns := task.request.namespace;
    && task.mustSee <= AcknowledgedCommit(w, ns)
    && (Keyed(task.phase) ==>
          task.generation <= Generation(w, ns) && task.mustSee <= FloorAt(w, ns, task.generation))
    && (HasLoaded(task.phase) ==>
          task.value.query == task.request && ReadSince(w, ns, task.generation, task.value.readAt))
    && (task.outcome.Answered? ==>
          var p := task.outcome.payload;
          SameAnswer(cfg, p.query, task.request) && task.mustSee <= p.readAt <= w.database)
  }

  ghost predicate FenceInv(cfg: Config, s: State) {
    && WorldInv(s.world) && BackendInv(cfg, s.world, s.tasks, s.backend)
    && (forall t | 0 <= t < |s.tasks| :: TaskOk(cfg, s.world, s.tasks[t]))
  }

  // ------------------------------------------------------- the world moves on

  ghost predicate Extends(w: World, w': World) {
    && w.database <= w'.database
    && (forall ns :: Floors(w, ns) <= Floors(w', ns))
    && (forall ns :: AcknowledgedCommit(w, ns) <= AcknowledgedCommit(w', ns))
  }

  lemma TaskStaysOk(cfg: Config, w: World, w': World, task: Task)
    requires Extends(w, w') && TaskOk(cfg, w, task)
    ensures TaskOk(cfg, w', task)
  {
  }

  lemma EntryStaysOk(cfg: Config, s: State, e: Event, d: string, env: Envelope)
    requires MetricsInv(s) && Enabled(cfg, s, e) && Extends(s.world, Apply(cfg, s, e).world)
    requires EntryOk(cfg, s.world, s.tasks, d, env)
    ensures EntryOk(cfg, Apply(cfg, s, e).world, Apply(cfg, s, e).tasks, d, env)
  {
    KeysStayInUse(cfg, s, e, env.payload.query, env.generation);
    assert Floors(s.world, env.payload.query.namespace) <= Floors(Apply(cfg, s, e).world, env.payload.query.namespace);
  }

  /** Entries stay as good as they were, wherever the event leaves them. */
  lemma BackendStaysOk(cfg: Config, s: State, e: Event)
    requires MetricsInv(s) && Enabled(cfg, s, e) && Extends(s.world, Apply(cfg, s, e).world)
    requires BackendInv(cfg, s.world, s.tasks, s.backend)
    ensures BackendInv(cfg, Apply(cfg, s, e).world, Apply(cfg, s, e).tasks, s.backend)
  {
    var s' := Apply(cfg, s, e);
    forall d | d in s.backend.store && s.backend.store[d].Sealed?
      ensures EntryOk(cfg, s'.world, s'.tasks, d, s.backend.store[d].envelope)
    {
      EntryStaysOk(cfg, s, e, d, s.backend.store[d].envelope);
    }
    forall x | x in s.backend.late ensures EntryOk(cfg, s'.world, s'.tasks, x.0, x.1) {
      EntryStaysOk(cfg, s, e, x.0, x.1);
    }
  }

  lemma CommitKeepsWorld(w: World, ns: Bytes)
    requires WorldInv(w)
    ensures var w' := NextWorld(w, Commit(ns)); WorldInv(w') && Extends(w, w')
  {
    var w' := NextWorld(w, Commit(ns));
    assert forall n :: Floors(w', n) == Floors(w, n) && AcknowledgedCommit(w', n) == AcknowledgedCommit(w, n);
    forall i | 0 <= i < |w'.writers| ensures WriterOk(w', w'.writers[i]) {
      if i < |w.writers| {
        assert w'.writers[i] == w.writers[i];
      }
    }
  }

  /** What a landing bump does to the floors. */
  lemma BumpRaisesFloor(w: World, i: nat)
    requires WorldInv(w) && Possible(w, BumpLands(i))
    ensures var w', bumped := NextWorld(w, BumpLands(i)), w.writers[i].namespace;
            && Floors(w', bumped) == Floors(w, bumped) + [w.database] && CurrentFloor(w', bumped) == w.database
            && CurrentFloor(w, bumped) <= w.database
            && (forall n | n != bumped :: Floors(w', n) == Floors(w, n))
            && (forall n :: AcknowledgedCommit(w', n) == AcknowledgedCommit(w, n))
  {
  }

  lemma BumpKeepsWriter(w: World, i: nat, j: nat)
    requires WorldInv(w) && Possible(w, BumpLands(i)) && j < |w.writers|
    ensures var w' := NextWorld(w, BumpLands(i)); WriterOk(w', w'.writers[j])
  {
    BumpRaisesFloor(w, i);
    assert WriterOk(w, w.writers[j]);
  }

  /** The bump that lands raises the floor to the present, above every commit made so far. */
  lemma BumpKeepsWorld(w: World, i: nat)
    requires WorldInv(w) && Possible(w, BumpLands(i))
    ensures var w' := NextWorld(w, BumpLands(i)); WorldInv(w') && Extends(w, w')
  {
    var w' := NextWorld(w, BumpLands(i));
    BumpRaisesFloor(w, i);
    forall j | 0 <= j < |w'.writers| ensures WriterOk(w', w'.writers[j]) {
      BumpKeepsWriter(w, i, j);
    }
  }

  lemma ReturnKeepsWriter(w: World, i: nat, j: nat)
    requires WorldInv(w) && Possible(w, BumpReturns(i)) && j < |w.writers|
    ensures var w' := NextWorld(w, BumpReturns(i)); WriterOk(w', w'.writers[j])
  {
    assert WriterOk(w, w.writers[j]);
  }

  lemma ReturnKeepsWorld(w: World, i: nat)
    requires WorldInv(w) && Possible(w, BumpReturns(i))
    ensures var w' := NextWorld(w, BumpReturns(i)); WorldInv(w') && Extends(w, w')
  {
    var w' := NextWorld(w, BumpReturns(i));
    assert WriterOk(w, w.writers[i]);
    assert forall n :: Floors(w', n) == Floors(w, n) && CurrentFloor(w', n) == CurrentFloor(w, n);
    forall j | 0 <= j < |w'.writers| ensures WriterOk(w', w'.writers[j]) {
      ReturnKeepsWriter(w, i, j);
    }
  }

  lemma OtherChangesKeepWorld(w: World, change: Change)
    requires WorldInv(w) && Possible(w, change) && (change.ClockMoves? || change.BumpFails?)
    ensures var w' := NextWorld(w, change); WorldInv(w') && Extends(w, w')
  {
    var w' := NextWorld(w, change);
    assert forall n :: Floors(w', n) == Floors(w, n) && AcknowledgedCommit(w', n) == AcknowledgedCommit(w, n);
    forall j | 0 <= j < |w'.writers| ensures WriterOk(w', w'.writers[j]) {
      assert WriterOk(w, w.writers[j]);
      if change.BumpFails? && j != change.w {
        assert w'.writers[j] == w.writers[j];
      }
    }
  }

  lemma WorldStepOk(w: World, change: Change)
    requires WorldInv(w) && Possible(w, change)
    ensures var w' := NextWorld(w, change); WorldInv(w') && Extends(w, w')
  {
    match change
    case Commit(ns) => CommitKeepsWorld(w, ns);
    case BumpLands(i) => BumpKeepsWorld(w, i);
    case BumpReturns(i) => ReturnKeepsWorld(w, i);
    case _ => OtherChangesKeepWorld(w, change);
  }

  // ------------------------------------------------------------- the calls move

  /**
   * A fresh entry under the call's digest answers the call's query, from data the call must see. `tasks` are
   * the calls once this one has looked its key up.
   */
  lemma FreshIsFenced(cfg: Config, s: State, tasks: seq<Task>, task: Task)
    requires NoCollision(cfg, tasks) && WorldInv(s.world) && BackendInv(cfg, s.world, tasks, s.backend)
    requires KeyInUse(tasks, task.request, task.generation)
    requires TaskOk(cfg, s.world, task) && Keyed(task.phase) && Fresh(cfg, s, task).Some?
    ensures var p := Fresh(cfg, s, task).value;
            SameAnswer(cfg, p.query, task.request) && task.mustSee <= p.readAt <= s.world.database
  {
    var d := Digest(cfg, task);
    var env := s.backend.store[d].envelope;
    assert EntryOk(cfg, s.world, tasks, d, env);
    var t :| 0 <= t < |tasks| && IsKeyOf(tasks[t], env.payload.query, env.generation);
    var u :| 0 <= u < |tasks| && IsKeyOf(tasks[u], task.request, task.generation);
    assert ToldApart(cfg, tasks[t], tasks[u]);
    assert env.payload.query.namespace == task.request.namespace;
  }

  /** Reading the generation: whatever the call must see lies below the current floor. */
  lemma ReadingStaysOk(cfg: Config, s: State, task: Task)
    requires WorldInv(s.world) && TaskOk(cfg, s.world, task) && task.phase.ReadGeneration?
    ensures TaskOk(cfg, s.world, Moved(cfg, s, task, GenerationRead))
  {
  }

  lemma LookupStaysOk(cfg: Config, s: State, tasks: seq<Task>, task: Task, a: Action)
    requires NoCollision(cfg, tasks) && WorldInv(s.world) && BackendInv(cfg, s.world, tasks, s.backend)
    requires KeyInUse(tasks, task.request, task.generation)
    requires TaskOk(cfg, s.world, task) && Fits(cfg, s, task, a) && (a.LookedUp? || a.Rechecked?)
    ensures TaskOk(cfg, s.world, Moved(cfg, s, task, a))
  {
    if Fresh(cfg, s, task).Some? {
      FreshIsFenced(cfg, s, tasks, task);
    }
  }

  /** Loading now reads the newest version, which no floor is above. */
  lemma LoadStaysOk(cfg: Config, s: State, task: Task, a: Action)
    requires WorldInv(s.world) && TaskOk(cfg, s.world, task) && Fits(cfg, s, task, a) && a.LoaderReturns?
    ensures TaskOk(cfg, s.world, Moved(cfg, s, task, a))
  {
  }

  lemma OtherwiseStaysOk(cfg: Config, s: State, task: Task, a: Action)
    requires TaskOk(cfg, s.world, task) && Fits(cfg, s, task, a)
    requires !a.GenerationRead? && !a.LookedUp? && !a.Rechecked? && !a.LoaderReturns?
    ensures TaskOk(cfg, s.world, Moved(cfg, s, task, a))
  {
  }

  /** A lookup puts the call's key in use. */
  lemma LookupUsesKey(cfg: Config, s: State, t: TaskId, a: Action)
    requires Enabled(cfg, s, Call(t, a)) && MetricsInv(s) && (a.LookedUp? || a.Rechecked?)
    ensures KeyInUse(Apply(cfg, s, Call(t, a)).tasks, s.tasks[t].request, s.tasks[t].generation)
  {
    assert TallyOk(s.tasks[t]);
    var tasks := Apply(cfg, s, Call(t, a)).tasks;
    assert IsKeyOf(tasks[t], s.tasks[t].request, s.tasks[t].generation);
  }

  lemma CallStaysOk(cfg: Config, s: State, t: TaskId, a: Action)
    requires Enabled(cfg, s, Call(t, a)) && MetricsInv(s) && FenceInv(cfg, s)
    requires var tasks := Apply(cfg, s, Call(t, a)).tasks;
             NoCollision(cfg, tasks) && BackendInv(cfg, s.world, tasks, s.backend)
    ensures TaskOk(cfg, s.world, Moved(cfg, s, s.tasks[t], a))
  {
    var task, tasks := s.tasks[t], Apply(cfg, s, Call(t, a)).tasks;
    assert TaskOk(cfg, s.world, task);
    if a.LookedUp? || a.Rechecked? {
      LookupUsesKey(cfg, s, t, a);
      LookupStaysOk(cfg, s, tasks, task, a);
    } else if a.GenerationRead? {
      ReadingStaysOk(cfg, s, task);
    } else if a.LoaderReturns? {
      LoadStaysOk(cfg, s, task, a);
    } else {
      OtherwiseStaysOk(cfg, s, task, a);
    }
  }

  /** What a call puts, or leaves behind to land late, sits under its own key. */
  lemma PutIsOk(cfg: Config, s: State, t: TaskId, a: Action)
    requires Enabled(cfg, s, Call(t, a)) && MetricsInv(s) && FenceInv(cfg, s) && s.tasks[t].phase.Putting?
    ensures EntryOk(cfg, s.world, Apply(cfg, s, Call(t, a)).tasks, Digest(cfg, s.tasks[t]), SealedBy(s.tasks[t]))
  {
    assert TallyOk(s.tasks[t]) && TaskOk(cfg, s.world, s.tasks[t]);
    KeyStays(cfg, s, Call(t, a), t);
  }

  lemma CallKeepsFence(cfg: Config, s: State, t: TaskId, a: Action)
    requires FenceInv(cfg, s) && MetricsInv(s) && Enabled(cfg, s, Call(t, a))
    requires NoCollision(cfg, Apply(cfg, s, Call(t, a)).tasks)
    ensures FenceInv(cfg, Apply(cfg, s, Call(t, a)))
  {
    var s' := Apply(cfg, s, Call(t, a));
    BackendStaysOk(cfg, s, Call(t, a));
    CallStaysOk(cfg, s, t, a);
    if s.tasks[t].phase.Putting? {
      PutIsOk(cfg, s, t, a);
    }
    assert s'.backend == NextBackend(cfg, s.backend, s.tasks[t], a);
  }

  lemma OutsideKeepsFence(cfg: Config, s: State, change: Change)
    requires FenceInv(cfg, s) && MetricsInv(s) && Possible(s.world, change)
    ensures FenceInv(cfg, Apply(cfg, s, Outside(change))) && Extends(s.world, NextWorld(s.world, change))
  {
    var s' := Apply(cfg, s, Outside(change));
    WorldStepOk(s.world, change);
    BackendStaysOk(cfg, s, Outside(change));
    forall t | 0 <= t < |s.tasks| ensures TaskOk(cfg, s'.world, s'.tasks[t]) {
      TaskStaysOk(cfg, s.world, s'.world, s.tasks[t]);
    }
  }

  lemma BeginKeepsFence(cfg: Config, s: State, request: CacheKeyInput, inTransaction: bool)
    requires FenceInv(cfg, s) && MetricsInv(s)
    ensures FenceInv(cfg, Apply(cfg, s, Begin(request, inTransaction)))
  {
    BackendStaysOk(cfg, s, Begin(request, inTransaction));
    assert TaskOk(cfg, s.world, NewTask(cfg, s, request, inTransaction));
  }

  /** Every event keeps the fence, as long as the keys in use afterwards do not collide. */
  lemma StepKeepsFence(cfg: Config, s: State, e: Event)
    requires FenceInv(cfg, s) && MetricsInv(s) && Enabled(cfg, s, e) && NoCollision(cfg, Apply(cfg, s, e).tasks)
    ensures FenceInv(cfg, Apply(cfg, s, e)) && Extends(s.world, Apply(cfg, s, e).world)
  {
    match e
    case Begin(request, inTransaction) => BeginKeepsFence(cfg, s, request, inTransaction);
    case Call(t, a) => CallKeepsFence(cfg, s, t, a);
    case Trouble(_) => BackendStaysOk(cfg, s, e);
    case Outside(change) => OutsideKeepsFence(cfg, s, change);
  }

  // -------------------------------------------------------------------- runs

  lemma FenceAtFirst(cfg: Config)
    ensures FenceInv(cfg, INITIAL)
  {
  }

  lemma FenceAfter(cfg: Config, run: seq<State>, events: seq<Event>, i: nat)
    requires IsRun(cfg, run, events) && i < |events|
    requires FenceInv(cfg, run[i]) && NoCollision(cfg, run[i + 1].tasks)
    ensures FenceInv(cfg, run[i + 1])
  {
    RunKeepsMetrics(cfg, run, events, i);
    assert StepsAt(cfg, run, events, i);
    StepKeepsFence(cfg, run[i], events[i]);
  }

  lemma {:induction false} RunKeepsFence(cfg: Config, run: seq<State>, events: seq<Event>, i: nat)
    requires IsRun(cfg, run, events) && i < |run| && NoCollision(cfg, run[i].tasks)
    ensures FenceInv(cfg, run[i])
  {
    if i == 0 {
      FenceAtFirst(cfg);
    } else {
      NoCollisionEarlier(cfg, run, events, i - 1, i);
      RunKeepsFence(cfg, run, events, i - 1);
      FenceAfter(cfg, run, events, i - 1);
    }
  }

  /** A call keeps its request, and what it must see, from its first event on. */
  lemma {:induction false} CallKeepsItsTerms(cfg: Config, run: seq<State>, events: seq<Event>, b: nat, i: nat)
    requires IsRun(cfg, run, events) && b < i < |run| && events[b].Begin?
    ensures |run[b].tasks| < |run[i].tasks|
    ensures var task := run[i].tasks[|run[b].tasks|];
            && task.request == events[b].request
            && task.mustSee == AcknowledgedCommit(run[b].world, events[b].request.namespace)
  {
    assert StepsAt(cfg, run, events, i - 1);
    if i > b + 1 {
      CallKeepsItsTerms(cfg, run, events, b, i - 1);
    }
  }

  /**
   * The generation fence. Take any run: any number of calls and writers, interleaved anywhere, loaders and
   * backend failing, puts and bumps landing late, entries lost or damaged, calls cancelled, the clock
   * jumping; only the digests of the keys that its calls have looked up must not collide. If a writer's
   * `invalidate_after_commit` has returned when a call on its namespace begins, then whatever that call
   * answers was read from the database at or after that writer's commit, for the query it asked.
   */
  lemma GenerationFence(
      cfg: Config, run: seq<State>, events: seq<Event>, b: nat, w: nat, i: nat, answer: Payload)
    requires IsRun(cfg, run, events) && b < i < |run| && events[b].Begin?
    requires NoCollision(cfg, run[i].tasks)
    requires WriterIs(run[b].world, w, Acknowledged)
    requires run[b].world.writers[w].namespace == events[b].request.namespace
    requires |run[b].tasks| < |run[i].tasks| && run[i].tasks[|run[b].tasks|].outcome == Answered(answer)
    ensures run[b].world.writers[w].commit <= answer.readAt <= run[i].world.database
    ensures SameAnswer(cfg, answer.query, events[b].request)
  {
    NoCollisionEarlier(cfg, run, events, b, i);
    RunKeepsFence(cfg, run, events, b);
    RunKeepsFence(cfg, run, events, i);
    CallKeepsItsTerms(cfg, run, events, b, i);
    assert WriterOk(run[b].world, run[b].world.writers[w]);
    assert TaskOk(cfg, run[i].world, run[i].tasks[|run[b].tasks|]);
  }

  /** The fence for hashed keys: all it asks of the hash is to separate the preimages that the run has hashed. */
  lemma HashedGenerationFence(
      cfg: Config, hash: Bytes -> string, run: seq<State>, events: seq<Event>, b: nat, w: nat, i: nat, answer: Payload)
    requires IsRun(cfg, run, events) && Physical(cfg, events) && b < i < |run| && events[b].Begin?
    requires IsHashed(cfg, hash) && HashSeparates(cfg, hash, run[i].tasks)
    requires WriterIs(run[b].world, w, Acknowledged)
    requires run[b].world.writers[w].namespace == events[b].request.namespace
    requires |run[b].tasks| < |run[i].tasks| && run[i].tasks[|run[b].tasks|].outcome == Answered(answer)
    ensures run[b].world.writers[w].commit <= answer.readAt && SameAnswer(cfg, answer.query, events[b].request)
  {
    HashedKeysDoNotCollide(cfg, hash, run, events, i);
    GenerationFence(cfg, run, events, b, w, i, answer);
  }
}
