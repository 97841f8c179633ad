/**
 * `CacheInterceptor::get_or_load` as a protocol: any number of calls, writers and backend mishaps, one
 * shared-state access at a time.
 */
module Protocol {
  import opened Common
  import opened CacheKeys

  type FlightId = nat
  type TaskId = nat

  /** `digest` is the hash of the key preimage; `parse` is the SQL parser. */
  datatype Config = Config(
    parse: SqlParser, digest: (CacheKeyInput, nat) -> string, maxValueSize: nat, ttlMs: nat)

  /** Bytes produced by a loader, tagged with the query it ran and the database version it saw. */
  datatype Payload = Payload(query: CacheKeyInput, readAt: nat, size: nat)

  datatype Envelope = Envelope(generation: nat, expiresAt: nat, payload: Payload)

  /** What the backend holds under a digest; `Garbage` is anything that does not decode. */
  datatype Stored = Sealed(envelope: Envelope) | Garbage

  datatype Outcome = Pending | Answered(payload: Payload) | LoaderFailed | EncodingFailed | Cancelled

  /** Where a call stands; the comments name the await or the action that comes next. */
  datatype Phase =
    | ReadGeneration  // backend.generation().await
    | Lookup          // backend.get().await
    | Join            // flights.entry().or_insert_with().clone()
    | Waiting         // flight.lock().await
    | Recheck         // backend.get().await, under the lock
    | LoadAlone       // loader().await, without key
    | LoadLocked      // loader().await, under the lock
    | Encoding        // size check, envelope, encode
    | Putting         // backend.put().await
    | Unlocking       // drop(guard)
    | Releasing       // release_flight
    | Dropping        // the local Arc goes out of scope
    | Finished

  /** The counters; `recheckHits` and `generationFailures` exist only to state their conservation. */
  datatype Metrics = Metrics(
    hits: nat, misses: nat, bypasses: nat, backendErrors: nat, loads: nat, recheckHits: nat, generationFailures: nat)

  const ZERO := Metrics(0, 0, 0, 0, 0, 0, 0)

  /** What one step of a call adds to the counters. */
  datatype Mark =
    | Nothing | Bypassed | GenerationFailed | Hit | RecheckHit | Miss | FailedLookup | Load | FailedRecheck | FailedPut

  function Count(m: Metrics, mark: Mark): Metrics {
    match mark
    case Nothing => m
    case Bypassed => m.(bypasses := m.bypasses + 1, loads := m.loads + 1)
    case GenerationFailed =>
      m.(backendErrors := m.backendErrors + 1, loads := m.loads + 1, generationFailures := m.generationFailures + 1)
    case Hit => m.(hits := m.hits + 1)
    case RecheckHit => m.(hits := m.hits + 1, recheckHits := m.recheckHits + 1)
    case Miss => m.(misses := m.misses + 1)
    case FailedLookup => m.(backendErrors := m.backendErrors + 1, misses := m.misses + 1)
    case Load => m.(loads := m.loads + 1)
    case FailedRecheck => m.(backendErrors := m.backendErrors + 1, loads := m.loads + 1)
    case FailedPut => m.(backendErrors := m.backendErrors + 1)
  }

  /**
   * One call and its locals. `mustSee` is the newest commit acknowledged for its namespace when it began;
   * `tally` is its own share of the metrics.
   */
  datatype Task = Task(
    request: CacheKeyInput, mustSee: nat, phase: Phase, generation: nat, flight: FlightId, value: Payload,
    expiresAt: nat, outcome: Outcome, tally: Metrics)

  datatype WriterPhase = Committed | Bumped | Acknowledged | Failed

  /** A writer commits to the database, then runs `invalidate_after_commit`. */
  datatype Writer = Writer(namespace: Bytes, commit: nat, phase: WriterPhase)

  /** The single-flight table, and who holds the mutex of which flight. */
  datatype Table = Table(flights: map<string, FlightId>, nextFlight: FlightId, owner: map<FlightId, TaskId>)

  /** The backend's entries; `late` holds puts that failed or were abandoned and may still land. */
  datatype Backend = Backend(store: map<string, Stored>, late: set<(string, Envelope)>)

  /**
   * `floors[ns][g - 1]` is the database version at the moment generation g of ns began; the generation of
   * ns is the number of its floors.
   */
  datatype World = World(
    floors: map<Bytes, seq<nat>>, database: nat, writers: seq<Writer>, acknowledged: map<Bytes, nat>, now: nat,
    invalidations: nat)

  datatype State = State(tasks: seq<Task>, table: Table, backend: Backend, world: World, metrics: Metrics)

  const INITIAL :=
    State([], Table(map[], 0, map[]), Backend(map[], {}), World(map[], 0, [], map[], 0, 0), ZERO)

  /** What one call does, or has done to it, between two points where others may run. */
  datatype Action =
    | GenerationRead
    | GenerationFails
    | LookedUp
    | LookupFails
    | JoinFlight
    | Acquire
    | Rechecked
    | RecheckFails
    | LoaderReturns(size: nat)
    | LoaderFails
    | Encoded
    | EncodeFails
    | PutDone
    | PutFails
    | Unlock
    | Release
    | DropArc
    | Cancel

  /** The backend on its own: late puts land, entries are dropped or damaged. */
  datatype Mishap =
    | LateLanding(digest: string, envelope: Envelope)
    | Evict(digest: string)
    | Corrupt(digest: string)

  /** The clock, which may jump anywhere, and the writers; a bump that was reported failed may still land. */
  datatype Change =
    | ClockMoves(now: nat)
    | Commit(namespace: Bytes)
    | BumpLands(w: nat)
    | BumpReturns(w: nat)
    | BumpFails(w: nat)

  datatype Event =
    | Begin(request: CacheKeyInput, inTransaction: bool)
    | Call(t: TaskId, action: Action)
    | Trouble(mishap: Mishap)
    | Outside(change: Change)

  // ---------------------------------------------------------------- readings

  function Floors(w: World, namespace: Bytes): seq<nat> {
    if namespace in w.floors then w.floors[namespace] else []
  }

  function Generation(w: World, namespace: Bytes): nat {
    |Floors(w, namespace)|
  }

  function AcknowledgedCommit(w: World, namespace: Bytes): nat {
    if namespace in w.acknowledged then w.acknowledged[namespace] else 0
  }

  function Digest(cfg: Config, task: Task): string {
    cfg.digest(task.request, task.generation)
  }

  /** `SqlMetadata::parse` succeeds, outside a transaction, on a single SELECT. */
  predicate Cacheable(cfg: Config, request: CacheKeyInput, inTransaction: bool) {
    var metadata := cfg.parse(request.sql);
    metadata.Some? && !inTransaction && metadata.value.isSelect
  }

  /** `cached`: decode and `is_fresh`. */
  function Fresh(cfg: Config, s: State, task: Task): Option<Payload> {
    var d, store := Digest(cfg, task), s.backend.store;
    if d in store && store[d].Sealed? && store[d].envelope.generation == task.generation
       && store[d].envelope.expiresAt > s.world.now
    then Some(store[d].envelope.payload)
    else None
  }

  /** What a call holds: nothing, a clone of its flight, the clone and the lock, or a clone it has released. */
  datatype Standing = Apart | Queued | Inside | Leaving

  function StandingIn(p: Phase): Standing {
    match p
    case ReadGeneration => Apart
    case Lookup => Apart
    case Join => Apart
    case Waiting => Queued
    case Recheck => Inside
    case LoadAlone => Apart
    case LoadLocked => Inside
    case Encoding => Inside
    case Putting => Inside
    case Unlocking => Inside
    case Releasing => Queued
    case Dropping => Leaving
    case Finished => Apart
  }

  /** The call holds the guard of its flight's mutex. */
  predicate Critical(p: Phase) {
    StandingIn(p).Inside?
  }

  /** The call still relies on the flight table: it has cloned a flight and not yet released it. */
  predicate InFlight(p: Phase) {
    StandingIn(p).Inside? || StandingIn(p).Queued?
  }

  predicate HoldsArc(p: Phase) {
    !StandingIn(p).Apart?
  }

  /** The call has its loader's payload, and has not yet put it. */
  predicate HasLoaded(p: Phase) {
    p.Encoding? || p.Putting?
  }

  ghost function Holders(tasks: seq<Task>, f: FlightId): set<TaskId> {
    set t | 0 <= t < |tasks| && HoldsArc(tasks[t].phase) && tasks[t].flight == f
  }

  function TableRefs(flights: map<string, FlightId>, f: FlightId): set<string> {
    set d | d in flights && flights[d] == f
  }

  /** `Arc::strong_count`: one per local clone, one per table entry. */
  ghost function StrongCount(tasks: seq<Task>, flights: map<string, FlightId>, f: FlightId): nat {
    |Holders(tasks, f)| + |TableRefs(flights, f)|
  }

  /** Points at which a future can be dropped: it is suspended at an await. */
  predicate AtAwait(p: Phase) {
    || p.ReadGeneration? || p.Lookup? || p.Waiting? || p.Recheck? || p.LoadAlone? || p.LoadLocked? || p.Putting?
  }

  // -------------------------------------------------------------------- steps

  /** The phase in which a call takes part in the event. */
  predicate Fits(cfg: Config, s: State, task: Task, a: Action)
  {
    match a
    case GenerationRead => task.phase.ReadGeneration?
    case GenerationFails => task.phase.ReadGeneration?
    case LookedUp => task.phase.Lookup?
    case LookupFails => task.phase.Lookup?
    case JoinFlight => task.phase.Join?
    case Acquire => task.phase.Waiting? && task.flight !in s.table.owner
    case Rechecked => task.phase.Recheck?
    case RecheckFails => task.phase.Recheck?
    case LoaderReturns(_) => task.phase.LoadAlone? || task.phase.LoadLocked?
    case LoaderFails => task.phase.LoadAlone? || task.phase.LoadLocked?
    case Encoded => task.phase.Encoding?
    case EncodeFails => task.phase.Encoding? && task.value.size <= cfg.maxValueSize
    case PutDone => task.phase.Putting?
    case PutFails => task.phase.Putting?
    case Unlock => task.phase.Unlocking?
    case Release => task.phase.Releasing?
    case DropArc => task.phase.Dropping?
    case Cancel => AtAwait(task.phase)
  }

  predicate WriterIs(w: World, i: nat, phase: WriterPhase) {
    i < |w.writers| && w.writers[i].phase == phase
  }

  predicate Enabled(cfg: Config, s: State, e: Event) {
    match e
    case Begin(_, _) => true
    case Call(t, a) => t < |s.tasks| && Fits(cfg, s, s.tasks[t], a)
    case Trouble(LateLanding(d, env)) => (d, env) in s.backend.late
    case Trouble(Evict(_)) => true
    case Trouble(Corrupt(d)) => d in s.backend.store
    case Outside(change) => Possible(s.world, change)
  }

  predicate Possible(w: World, change: Change) {
    match change
    case ClockMoves(_) => true
    case Commit(_) => true
    case BumpLands(i) => WriterIs(w, i, Committed) || WriterIs(w, i, Failed)
    case BumpReturns(i) => WriterIs(w, i, Bumped)
    case BumpFails(i) => WriterIs(w, i, Committed) || WriterIs(w, i, Bumped)
  }

  /** The flight a call gets when it joins: the listed one, or a new one. */
  function FlightFor(cfg: Config, table: Table, task: Task): FlightId {
    var d := Digest(cfg, task);
    if d in table.flights then table.flights[d] else table.nextFlight
  }

  /** Leaving with an error or by cancellation: the guard goes first, the Arc in a step of its own. */
  function Unwound(task: Task, outcome: Outcome): Task {
    task.(phase := if InFlight(task.phase) then Dropping else Finished, outcome := outcome)
  }

  /** The call after the event. */
  function NextTask(cfg: Config, s: State, task: Task, a: Action): (next: Task)
    ensures next.request == task.request && next.mustSee == task.mustSee && next.tally == task.tally
    ensures !a.GenerationRead? ==> next.generation == task.generation
    ensures !a.JoinFlight? ==> next.flight == task.flight
  {
    match a
    case GenerationRead => task.(phase := Lookup, generation := Generation(s.world, task.request.namespace))
    case GenerationFails => task.(phase := LoadAlone)
    case LookedUp =>
      (match Fresh(cfg, s, task)
       case Some(p) => task.(phase := Finished, value := p, outcome := Answered(p))
       case None => task.(phase := Join))
    case LookupFails => task.(phase := Join)
    case JoinFlight => task.(phase := Waiting, flight := FlightFor(cfg, s.table, task))
    case Acquire => task.(phase := Recheck)
    case Rechecked =>
      (match Fresh(cfg, s, task)
       case Some(p) => task.(phase := Unlocking, value := p, outcome := Answered(p))
       case None => task.(phase := LoadLocked))
    case RecheckFails => task.(phase := LoadLocked)
    case LoaderReturns(size) =>
      var p := Payload(task.request, s.world.database, size);
      if task.phase.LoadAlone? then task.(phase := Finished, value := p, outcome := Answered(p))
      else task.(phase := Encoding, value := p)
    case LoaderFails => Unwound(task, LoaderFailed)
    case Encoded =>
      if task.value.size <= cfg.maxValueSize
      then task.(phase := Putting, expiresAt := SaturatingAdd(s.world.now, cfg.ttlMs))
      else task.(phase := Unlocking, outcome := Answered(task.value))
    case EncodeFails => Unwound(task, EncodingFailed)
    case PutDone => task.(phase := Unlocking, outcome := Answered(task.value))
    case PutFails => task.(phase := Unlocking, outcome := Answered(task.value))
    case Unlock => task.(phase := Releasing)
    case Release => task.(phase := Dropping)
    case DropArc => task.(phase := Finished)
    case Cancel => Unwound(task, Cancelled)
  }

  /** What the call counts. */
  function Counted(cfg: Config, s: State, task: Task, a: Action): Mark {
    match a
    case GenerationFails => GenerationFailed
    case LookedUp => if Fresh(cfg, s, task).Some? then Hit else Miss
    case LookupFails => FailedLookup
    case Rechecked => if Fresh(cfg, s, task).Some? then RecheckHit else Load
    case RecheckFails => FailedRecheck
    case PutFails => FailedPut
    case _ => Nothing
  }

  /** The event gives the lock back: by `drop(guard)`, or by leaving early while inside. */
  predicate Unlocks(task: Task, a: Action) {
    a.Unlock? || ((a.LoaderFails? || a.EncodeFails? || a.Cancel?) && Critical(task.phase))
  }

  /** `flights.entry(digest).or_insert_with(..)` */
  function ListFlight(table: Table, d: string): Table {
    if d in table.flights then table
    else table.(flights := table.flights[d := table.nextFlight], nextFlight := table.nextFlight + 1)
  }

  /** `release_flight` */
  ghost function ReleaseFlight(tasks: seq<Task>, table: Table, d: string, f: FlightId): Table {
    if d in table.flights && table.flights[d] == f && StrongCount(tasks, table.flights, f) == 2
    then table.(flights := table.flights - {d})
    else table
  }

  /** What the event does to the flight table and its locks. */
  ghost function NextTable(cfg: Config, s: State, t: TaskId, a: Action): Table
    requires t < |s.tasks|
  {
    var task := s.tasks[t];
    if a.JoinFlight? then ListFlight(s.table, Digest(cfg, task))
    else if a.Acquire? then s.table.(owner := s.table.owner[task.flight := t])
    else if Unlocks(task, a) then s.table.(owner := s.table.owner - {task.flight})
    else if a.Release? then ReleaseFlight(s.tasks, s.table, Digest(cfg, task), task.flight)
    else s.table
  }

  function SealedBy(task: Task): Envelope {
    Envelope(task.generation, task.expiresAt, task.value)
  }

  /** What the event does to the backend. */
  function NextBackend(cfg: Config, backend: Backend, task: Task, a: Action): Backend {
    if a.PutDone? then backend.(store := backend.store[Digest(cfg, task) := Sealed(SealedBy(task))])
    else if a.PutFails? || (a.Cancel? && task.phase.Putting?) then
      backend.(late := backend.late + {(Digest(cfg, task), SealedBy(task))})
    else backend
  }

  function Damaged(backend: Backend, mishap: Mishap): Backend {
    match mishap
    case LateLanding(d, env) => backend.(store := backend.store[d := Sealed(env)])
    case Evict(d) => backend.(store := backend.store - {d})
    case Corrupt(d) => backend.(store := backend.store[d := Garbage])
  }

  function NextWorld(w: World, change: Change): World
    requires Possible(w, change)
  {
    match change
    case ClockMoves(now) => w.(now := now)
    case Commit(ns) => w.(database := w.database + 1, writers := w.writers + [Writer(ns, w.database + 1, Committed)])
    case BumpLands(i) =>
      var writer := w.writers[i];
      w.(writers := w.writers[i := writer.(phase := if writer.phase.Failed? then Failed else Bumped)],
         floors := w.floors[writer.namespace := Floors(w, writer.namespace) + [w.database]])
    case BumpReturns(i) =>
      var writer := w.writers[i];
      w.(writers := w.writers[i := writer.(phase := Acknowledged)],
         acknowledged := w.acknowledged[writer.namespace :=
             Max(writer.commit, AcknowledgedCommit(w, writer.namespace))],
         invalidations := w.invalidations + 1)
    case BumpFails(i) => w.(writers := w.writers[i := w.writers[i].(phase := Failed)])
  }

  /** `bypass` counts at once; a cacheable call counts nothing yet. */
  function Opening(cacheable: bool): Mark {
    if cacheable then Nothing else Bypassed
  }

  function NewTask(cfg: Config, s: State, request: CacheKeyInput, inTransaction: bool): Task {
    var cacheable := Cacheable(cfg, request, inTransaction);
    Task(request, AcknowledgedCommit(s.world, request.namespace), if cacheable then ReadGeneration else LoadAlone, 0, 0,
         Payload(request, 0, 0), 0, Pending, Count(ZERO, Opening(cacheable)))
  }

  /** The call after its event, with what it counted. */
  function Moved(cfg: Config, s: State, task: Task, a: Action): Task {
    NextTask(cfg, s, task, a).(tally := Count(task.tally, Counted(cfg, s, task, a)))
  }

  ghost function Apply(cfg: Config, s: State, e: Event): State
    requires Enabled(cfg, s, e)
  {
    match e
    case Begin(request, inTransaction) =>
      var task := NewTask(cfg, s, request, inTransaction);
      s.(tasks := s.tasks + [task], metrics := Count(s.metrics, Opening(Cacheable(cfg, request, inTransaction))))
    case Call(t, a) =>
      var task := s.tasks[t];
      State(s.tasks[t := Moved(cfg, s, task, a)], NextTable(cfg, s, t, a), NextBackend(cfg, s.backend, task, a),
            s.world, Count(s.metrics, Counted(cfg, s, task, a)))
    case Trouble(mishap) => s.(backend := Damaged(s.backend, mishap))
    case Outside(change) => s.(world := NextWorld(s.world, change))
  }

  // --------------------------------------------------------------------- runs

  /** Event `i` of the run leads from state `i` to the next. */
  ghost predicate StepsAt(cfg: Config, run: seq<State>, events: seq<Event>, i: nat)
    requires i < |events| < |run|
  {
    Enabled(cfg, run[i], events[i]) && run[i + 1] == Apply(cfg, run[i], events[i])
  }

  /** States visited from the empty interceptor, one event apart. */
  ghost predicate IsRun(cfg: Config, run: seq<State>, events: seq<Event>) {
    && |run| == |events| + 1 && run[0] == INITIAL
    && forall i | 0 <= i < |events| :: StepsAt(cfg, run, events, i)
  }

  lemma RunGrows(cfg: Config, run: seq<State>, events: seq<Event>, e: Event)
    requires IsRun(cfg, run, events) && Enabled(cfg, run[|events|], e)
    ensures IsRun(cfg, run + [Apply(cfg, run[|events|], e)], events + [e])
  {
    var run', events' := run + [Apply(cfg, run[|events|], e)], events + [e];
    forall i | 0 <= i < |events'| ensures StepsAt(cfg, run', events', i) {
      if i < |events| {
        assert StepsAt(cfg, run, events, i);
      }
    }
  }
}
