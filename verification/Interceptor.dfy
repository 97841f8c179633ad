/**
 * The interceptor as the object it is: a table of reference-counted flights, counters and a backend, all
 * updated in place by the stretches of `get_or_load` between two awaits. Everything it does is a run of the
 * protocol, so every theorem about runs holds of it.
 */
module Interceptors {
  import opened Common
  import opened CacheKeys
  import opened Protocol
  import opened ProtocolFlights
  import opened ProtocolBypass
  import ProtocolFence
  import ProtocolKeys

  // ------------------------------------------------------------ reference counts

  /** The count kept in the `Arc` of each flight; a freed or unborn flight has none. */
  function CountOf(strong: map<FlightId, nat>, f: FlightId): nat {
    if f in strong then strong[f] else 0
  }

  /** The counters agree with who really holds what. */
  ghost predicate CountsHold(strong: map<FlightId, nat>, tasks: seq<Task>, flights: map<string, FlightId>) {
    forall f: FlightId :: CountOf(strong, f) == StrongCount(tasks, flights, f)
  }

  ghost predicate Holds(task: Task, f: FlightId) {
    HoldsArc(task.phase) && task.flight == f
  }

  lemma HoldersAfter(tasks: seq<Task>, t: TaskId, task: Task, f: FlightId)
    requires t < |tasks|
    ensures Holders(tasks[t := task], f) == if Holds(task, f) then Holders(tasks, f) + {t} else Holders(tasks, f) - {t}
    ensures |Holders(tasks[t := task], f)| ==
            |Holders(tasks, f)| + (if Holds(task, f) then 1 else 0) - (if Holds(tasks[t], f) then 1 else 0)
  {
  }

  /** A call that holds the same as before changes no count. */
  lemma SameHolding(strong: map<FlightId, nat>, tasks: seq<Task>, flights: map<string, FlightId>, t: TaskId, task: Task)
    requires CountsHold(strong, tasks, flights) && t < |tasks|
    requires HoldsArc(task.phase) == HoldsArc(tasks[t].phase) && task.flight == tasks[t].flight
    ensures CountsHold(strong, tasks[t := task], flights)
  {
    forall f: FlightId ensures CountOf(strong, f) == StrongCount(tasks[t := task], flights, f) {
      HoldersAfter(tasks, t, task, f);
    }
  }

  lemma Started(strong: map<FlightId, nat>, tasks: seq<Task>, flights: map<string, FlightId>, task: Task)
    requires CountsHold(strong, tasks, flights) && !HoldsArc(task.phase)
    ensures CountsHold(strong, tasks + [task], flights)
  {
    forall f: FlightId ensures CountOf(strong, f) == StrongCount(tasks + [task], flights, f) {
      assert Holders(tasks + [task], f) == Holders(tasks, f);
    }
  }

  /** `Arc::clone` into a call. */
  lemma Cloned(strong: map<FlightId, nat>, tasks: seq<Task>, flights: map<string, FlightId>, t: TaskId, task: Task)
    requires CountsHold(strong, tasks, flights) && t < |tasks| && !HoldsArc(tasks[t].phase) && HoldsArc(task.phase)
    ensures CountsHold(strong[task.flight := CountOf(strong, task.flight) + 1], tasks[t := task], flights)
  {
    var strong' := strong[task.flight := CountOf(strong, task.flight) + 1];
    forall f: FlightId ensures CountOf(strong', f) == StrongCount(tasks[t := task], flights, f) {
      assert CountOf(strong, f) == StrongCount(tasks, flights, f);
      HoldersAfter(tasks, t, task, f);
    }
  }

  /** The clone of a call is dropped. */
  lemma Dropped(strong: map<FlightId, nat>, tasks: seq<Task>, flights: map<string, FlightId>, t: TaskId, task: Task)
    requires CountsHold(strong, tasks, flights) && t < |tasks| && HoldsArc(tasks[t].phase) && !HoldsArc(task.phase)
    ensures 1 <= CountOf(strong, tasks[t].flight)
    ensures CountsHold(strong[tasks[t].flight := CountOf(strong, tasks[t].flight) - 1], tasks[t := task], flights)
  {
    var f0 := tasks[t].flight;
    HoldersAfter(tasks, t, task, f0);
    assert CountOf(strong, f0) == StrongCount(tasks, flights, f0);
    var strong' := strong[f0 := CountOf(strong, f0) - 1];
    forall f: FlightId ensures CountOf(strong', f) == StrongCount(tasks[t := task], flights, f) {
      assert CountOf(strong, f) == StrongCount(tasks, flights, f);
      HoldersAfter(tasks, t, task, f);
    }
  }

  lemma RefsAfter(flights: map<string, FlightId>, d: string, f0: FlightId, f: FlightId)
    requires d !in flights
    ensures TableRefs(flights[d := f0], f) == if f == f0 then TableRefs(flights, f) + {d} else TableRefs(flights, f)
    ensures d !in TableRefs(flights, f)
  {
  }

  /** The table takes its own reference to a new flight. */
  lemma Listed(strong: map<FlightId, nat>, tasks: seq<Task>, flights: map<string, FlightId>, d: string, f0: FlightId)
    requires CountsHold(strong, tasks, flights) && d !in flights
    ensures CountsHold(strong[f0 := CountOf(strong, f0) + 1], tasks, flights[d := f0])
  {
    var strong', flights' := strong[f0 := CountOf(strong, f0) + 1], flights[d := f0];
    forall f: FlightId ensures CountOf(strong', f) == StrongCount(tasks, flights', f) {
      assert CountOf(strong, f) == StrongCount(tasks, flights, f);
      RefsAfter(flights, d, f0, f);
    }
  }

  /** The table's reference goes with its entry. */
  lemma Unlisted(strong: map<FlightId, nat>, tasks: seq<Task>, flights: map<string, FlightId>, d: string)
    requires CountsHold(strong, tasks, flights) && d in flights
    ensures 1 <= CountOf(strong, flights[d])
    ensures CountsHold(strong[flights[d] := CountOf(strong, flights[d]) - 1], tasks, flights - {d})
  {
    var f0 := flights[d];
    assert d in TableRefs(flights, f0);
    assert CountOf(strong, f0) == StrongCount(tasks, flights, f0);
    var strong' := strong[f0 := CountOf(strong, f0) - 1];
    forall f: FlightId ensures CountOf(strong', f) == StrongCount(tasks, flights - {d}, f) {
      assert CountOf(strong, f) == StrongCount(tasks, flights, f);
      assert TableRefs(flights - {d}, f) == TableRefs(flights, f) - {d};
    }
  }

  // ------------------------------------------------------------------- the object

  /** The ways to stop early, and how each is reported. */
  predicate Stops(a: Action, outcome: Outcome) {
    match a
    case LoaderFails => outcome.LoaderFailed?
    case EncodeFails => outcome.EncodingFailed?
    case Cancel => outcome.Cancelled?
    case _ => false
  }

  /** Only call `t` has moved, and the world has not. */
  ghost predicate Alone(a: State, b: State, t: TaskId) {
    && b.world == a.world && |b.tasks| == |a.tasks| && t < |a.tasks|
    && forall u | 0 <= u < |a.tasks| && u != t :: b.tasks[u] == a.tasks[u]
  }

  /** The call is over, with this outcome. */
  predicate Ends(a: Task, b: Task, outcome: Outcome) {
    SameKey(a, b) && b.value == a.value && b.phase.Finished? && b.outcome == outcome
  }

  predicate Keeps(a: Task, b: Task) {
    SameKey(a, b) && b.value == a.value && b.outcome == a.outcome
  }

  /** The call is about to put its value, to expire one TTL from now. */
  predicate Sealing(cfg: Config, w: World, a: Task, b: Task) {
    SameKey(a, b) && b.value == a.value && b.phase.Putting? && b.expiresAt == SaturatingAdd(w.now, cfg.ttlMs)
  }

  predicate Answers(task: Task, found: Option<Payload>) {
    task.phase.Finished? && found.Some? && task.outcome == Answered(found.value)
  }

  /** The same request under the same key. */
  predicate SameKey(a: Task, b: Task) {
    b.request == a.request && b.generation == a.generation
  }

  /** One bypass and one load more. */
  predicate CountsBypass(a: Metrics, b: Metrics) {
    b == a.(bypasses := a.bypasses + 1, loads := a.loads + 1)
  }

  /** How each await of a call ends. */
  datatype Awaits = Awaits(
    generation: bool, lookup: bool, recheck: bool, loader: Option<nat>, encodes: bool, put: bool)

  /** The call once it has read its generation. */
  function KeyedTask(cfg: Config, s: State, request: CacheKeyInput, inTransaction: bool): Task {
    NewTask(cfg, s, request, inTransaction).(generation := Generation(s.world, request.namespace))
  }

  function Loaded(s: State, request: CacheKeyInput, loader: Option<nat>): Outcome {
    match loader
    case None => LoaderFailed
    case Some(size) => Answered(Payload(request, s.world.database, size))
  }

  /** A lookup that works finds a fresh entry. */
  predicate Finds(cfg: Config, s: State, task: Task, awaits: Awaits) {
    (awaits.lookup || awaits.recheck) && Fresh(cfg, s, task).Some?
  }

  /** The loaded value is small enough to be stored. */
  predicate Stores(cfg: Config, awaits: Awaits) {
    awaits.loader.Some? && awaits.loader.value <= cfg.maxValueSize
  }

  function LoadedResult(cfg: Config, s: State, task: Task, awaits: Awaits): Outcome {
    if Stores(cfg, awaits) && !awaits.encodes then EncodingFailed else Loaded(s, task.request, awaits.loader)
  }

  /** The entry that a call puts; a failed put may land later. */
  function LoadedLeft(cfg: Config, s: State, task: Task, awaits: Awaits): Backend {
    if !Stores(cfg, awaits) || !awaits.encodes then s.backend
    else
      var payload := Payload(task.request, s.world.database, awaits.loader.value);
      var d, envelope := Digest(cfg, task), Envelope(task.generation, SaturatingAdd(s.world.now, cfg.ttlMs), payload);
      if awaits.put then s.backend.(store := s.backend.store[d := Sealed(envelope)])
      else s.backend.(late := s.backend.late + {(d, envelope)})
  }

  function KeyedResult(cfg: Config, s: State, task: Task, awaits: Awaits): Outcome {
    if Finds(cfg, s, task, awaits) then Answered(Fresh(cfg, s, task).value) else LoadedResult(cfg, s, task, awaits)
  }

  function KeyedLeft(cfg: Config, s: State, task: Task, awaits: Awaits): Backend {
    if Finds(cfg, s, task, awaits) then s.backend else LoadedLeft(cfg, s, task, awaits)
  }

  function Result(cfg: Config, s: State, request: CacheKeyInput, inTransaction: bool, awaits: Awaits): Outcome {
    if Cacheable(cfg, request, inTransaction) && awaits.generation
    then KeyedResult(cfg, s, KeyedTask(cfg, s, request, inTransaction), awaits)
    else Loaded(s, request, awaits.loader)
  }

  function Left(cfg: Config, s: State, request: CacheKeyInput, inTransaction: bool, awaits: Awaits): Backend {
    if Cacheable(cfg, request, inTransaction) && awaits.generation
    then KeyedLeft(cfg, s, KeyedTask(cfg, s, request, inTransaction), awaits)
    else s.backend
  }

  /**
   * Read your own load: what one call has put, the next call for the same request answers, whatever its own
   * loader would say, as long as nothing was invalidated and the clock is short of the expiry.
   */
  lemma SecondCallHits(
      cfg: Config, s: State, s': State, request: CacheKeyInput, first: Awaits, second: Awaits, size: nat)
    requires Cacheable(cfg, request, false) && first.generation
    requires !Finds(cfg, s, KeyedTask(cfg, s, request, false), first)
    requires first.loader == Some(size) && size <= cfg.maxValueSize && first.encodes && first.put
    requires s'.backend == Left(cfg, s, request, false, first)
    requires Generation(s'.world, request.namespace) == Generation(s.world, request.namespace)
    requires s'.world.now < SaturatingAdd(s.world.now, cfg.ttlMs)
    requires second.generation && (second.lookup || second.recheck)
    ensures Result(cfg, s', request, false, second) == Answered(Payload(request, s.world.database, size))
    ensures Result(cfg, s', request, false, second) == Result(cfg, s, request, false, first)
  {
    var a, b := KeyedTask(cfg, s, request, false), KeyedTask(cfg, s', request, false);
    assert Digest(cfg, a) == Digest(cfg, b);
    assert s'.backend == LoadedLeft(cfg, s, a, first);
  }

  /** Where nobody is inside, every lock is free. */
  lemma FreeLock(cfg: Config, run: seq<State>, events: seq<Event>, t: TaskId)
    requires IsRun(cfg, run, events) && t < |run[|events|].tasks|
    requires forall u | 0 <= u < |run[|events|].tasks| :: !Critical(run[|events|].tasks[u].phase)
    ensures run[|events|].table.owner == map[]
  {
    RunKeepsFlights(cfg, run, events, |events|);
    var s := run[|events|];
    forall f ensures f !in s.table.owner {
      if f in s.table.owner {
        assert false;
      }
    }
  }

  lemma StopsUnwind(cfg: Config, s: State, task: Task, a: Action, outcome: Outcome)
    requires Stops(a, outcome)
    ensures NextTask(cfg, s, task, a) == Unwound(task, outcome) && Counted(cfg, s, task, a) == Nothing
  {
  }

  class CacheInterceptor {
    const cfg: Config
    var flights: map<string, FlightId>
    var nextFlight: FlightId
    var strong: map<FlightId, nat>
    var owner: map<FlightId, TaskId>
    var backend: Backend
    var world: World
    var tasks: seq<Task>
    var metrics: Metrics
    ghost var history: seq<State>
    ghost var trace: seq<Event>

    ghost function Model(): State
      reads this
    {
      State(tasks, Table(flights, nextFlight, owner), backend, world, metrics)
    }

    /** The object's life so far is a run of the protocol. */
    ghost predicate Logged()
      reads this
    {
      IsRun(cfg, history, trace) && history[|trace|] == Model()
    }

    ghost predicate Valid()
      reads this
    {
      Logged() && CountsHold(strong, tasks, flights)
    }

    /** Call `t` stands at the await where `a` comes next. */
    ghost predicate Ready(t: TaskId, a: Action)
      reads this
    {
      Valid() && Enabled(cfg, Model(), Call(t, a))
    }

    constructor (cfg: Config)
      ensures Valid() && this.cfg == cfg && trace == []
    {
      this.cfg := cfg;
      flights, nextFlight, strong, owner := map[], 0, map[], map[];
      backend, world, tasks, metrics := Backend(map[], {}), World(map[], 0, [], map[], 0, 0), [], ZERO;
      history, trace := [INITIAL], [];
    }

    ghost method Log(e: Event)
      requires IsRun(cfg, history, trace) && Enabled(cfg, history[|trace|], e)
      requires Model() == Apply(cfg, history[|trace|], e)
      modifies this`history, this`trace
      ensures Logged() && trace == old(trace) + [e]
    {
      RunGrows(cfg, history, trace, e);
      history, trace := history + [Model()], trace + [e];
    }

    /** Table and backend have done their part of step `a`; the locals and the counters of call `t` follow. */
    method Move(t: TaskId, a: Action, task: Task, mark: Mark)
      requires IsRun(cfg, history, trace) && CountsHold(strong, tasks, flights)
      requires var s := history[|trace|];
               && s.tasks == tasks && s.world == world && s.metrics == metrics
               && t < |tasks| && Fits(cfg, s, tasks[t], a)
               && Table(flights, nextFlight, owner) == NextTable(cfg, s, t, a)
               && backend == NextBackend(cfg, s.backend, tasks[t], a)
               && task == NextTask(cfg, s, tasks[t], a) && mark == Counted(cfg, s, tasks[t], a)
      requires HoldsArc(task.phase) == HoldsArc(tasks[t].phase) && task.flight == tasks[t].flight
      modifies this`tasks, this`metrics, this`history, this`trace
      ensures Valid() && trace == old(trace) + [Call(t, a)]
      ensures tasks == old(tasks)[t := task.(tally := Count(old(tasks)[t].tally, mark))]
      ensures metrics == Count(old(metrics), mark)
    {
      var moved := task.(tally := Count(tasks[t].tally, mark));
      SameHolding(strong, tasks, flights, t, moved);
      tasks := tasks[t := moved];
      metrics := Count(metrics, mark);
      Log(Call(t, a));
    }

    /** A new call runs to its first await: the generation, or its loader when it bypasses the cache. */
    method Start(request: CacheKeyInput, inTransaction: bool) returns (t: TaskId)
      requires Valid()
      modifies this
      ensures Valid() && trace == old(trace) + [Begin(request, inTransaction)]
      ensures t == |old(tasks)| && |tasks| == t + 1 && tasks[..t] == old(tasks)
      ensures tasks[t] == NewTask(cfg, old(Model()), request, inTransaction)
      ensures backend == old(backend) && world == old(world) && flights == old(flights)
      ensures GoesPast(cfg, request, inTransaction) <==> tasks[t].phase.LoadAlone?
      ensures GoesPast(cfg, request, inTransaction) ==> CountsBypass(old(metrics), metrics)
    {
      t := |tasks|;
      var metadata := cfg.parse(request.sql);
      var bypass := metadata.None? || inTransaction || !metadata.value.isSelect;
      var counted := if bypass then Bypassed else Nothing;
      var first := if bypass then LoadAlone else ReadGeneration;
      var task := Task(request, AcknowledgedCommit(world, request.namespace), first, 0, 0, Payload(request, 0, 0), 0,
                       Pending, Count(ZERO, counted));
      Started(strong, tasks, flights, task);
      tasks := tasks + [task];
      metrics := Count(metrics, counted);
      Log(Begin(request, inTransaction));
    }

    method AfterGeneration(t: TaskId, ok: bool)
      requires Ready(t, GenerationRead)
      modifies this
      ensures Valid() && trace == old(trace) + [Call(t, if ok then GenerationRead else GenerationFails)]
      ensures Alone(old(Model()), Model(), t)
      ensures tasks[t].request == old(tasks)[t].request && tasks[t].phase == if ok then Lookup else LoadAlone
      ensures ok ==> tasks[t].generation == Generation(world, tasks[t].request.namespace)
      ensures backend == old(backend)
    {
      var task := tasks[t];
      if ok {
        task := task.(generation := Generation(world, task.request.namespace), phase := Lookup);
      } else {
        task := task.(phase := LoadAlone);
      }
      Move(t, if ok then GenerationRead else GenerationFails, task, if ok then Nothing else GenerationFailed);
    }

    /** `cached`, when the backend answers. */
    method Cached(t: TaskId) returns (found: Option<Payload>)
      requires t < |tasks|
      ensures found == Fresh(cfg, Model(), tasks[t])
    {
      var d := Digest(cfg, tasks[t]);
      if d !in backend.store || backend.store[d].Garbage? {
        return None;
      }
      var envelope := backend.store[d].envelope;
      if envelope.generation == tasks[t].generation && envelope.expiresAt > world.now {
        return Some(envelope.payload);
      }
      return None;
    }

    /** The first lookup returns. */
    method FirstLookup(t: TaskId, ok: bool) returns (hit: bool)
      requires Ready(t, LookedUp)
      modifies this
      ensures Valid() && trace == old(trace) + [Call(t, if ok then LookedUp else LookupFails)]
      ensures Alone(old(Model()), Model(), t)
      ensures SameKey(old(tasks)[t], tasks[t]) && backend == old(backend)
      ensures hit <==> ok && Fresh(cfg, old(Model()), old(tasks)[t]).Some?
      ensures if hit then Answers(tasks[t], Fresh(cfg, old(Model()), old(tasks)[t])) else tasks[t].phase.Join?
    {
      var found, task := None, tasks[t];
      if ok {
        found := Cached(t);
      }
      hit := found.Some?;
      if hit {
        task := task.(phase := Finished, value := found.value, outcome := Answered(found.value));
      } else {
        task := task.(phase := Join);
      }
      var mark := if hit then Hit else if ok then Miss else FailedLookup;
      Move(t, if ok then LookedUp else LookupFails, task, mark);
    }

    /** The first lookup returns; a miss goes on to clone its flight and wait for its lock. */
    method AfterLookup(t: TaskId, ok: bool)
      requires Ready(t, LookedUp)
      modifies this
      ensures Valid()
      ensures Alone(old(Model()), Model(), t)
      ensures SameKey(old(tasks)[t], tasks[t]) && backend == old(backend)
      ensures ok && Fresh(cfg, old(Model()), old(tasks)[t]).Some? ==>
                Answers(tasks[t], Fresh(cfg, old(Model()), old(tasks)[t]))
      ensures !(ok && Fresh(cfg, old(Model()), old(tasks)[t]).Some?) ==> tasks[t].phase.Waiting?
      ensures ok && Fresh(cfg, old(Model()), old(tasks)[t]).Some? ==> trace == old(trace) + [Call(t, LookedUp)]
      ensures !(ok && Fresh(cfg, old(Model()), old(tasks)[t]).Some?) ==>
                trace == old(trace) + [Call(t, if ok then LookedUp else LookupFails), Call(t, JoinFlight)]
    {
      var hit := FirstLookup(t, ok);
      if !hit {
        Clone(t);
      }
    }

    /** `flights.entry(digest).or_insert_with(..)`: a new flight is referenced by the table alone. */
    method Entry(d: string) returns (flight: FlightId)
      requires CountsHold(strong, tasks, flights)
      modifies this`flights, this`nextFlight, this`strong
      ensures CountsHold(strong, tasks, flights)
      ensures Table(flights, nextFlight, owner) == ListFlight(old(Table(flights, nextFlight, owner)), d)
      ensures d in flights && flight == flights[d]
    {
      if d !in flights {
        Listed(strong, tasks, flights, d, nextFlight);
        strong := strong[nextFlight := CountOf(strong, nextFlight) + 1];
        flights, nextFlight := flights[d := nextFlight], nextFlight + 1;
      }
      flight := flights[d];
    }

    /** ... `.clone()` */
    method Clone(t: TaskId)
      requires Ready(t, JoinFlight)
      modifies this
      ensures Valid() && trace == old(trace) + [Call(t, JoinFlight)]
      ensures Alone(old(Model()), Model(), t)
      ensures SameKey(old(tasks)[t], tasks[t]) && tasks[t].phase.Waiting? && backend == old(backend)
    {
      var flight := Entry(Digest(cfg, tasks[t]));
      var task := tasks[t].(phase := Waiting, flight := flight);
      Cloned(strong, tasks, flights, t, task);
      strong := strong[flight := CountOf(strong, flight) + 1];
      tasks := tasks[t := task];
      Log(Call(t, JoinFlight));
    }

    method AfterLock(t: TaskId)
      requires Ready(t, Acquire)
      modifies this
      ensures Valid() && trace == old(trace) + [Call(t, Acquire)]
      ensures Alone(old(Model()), Model(), t)
      ensures SameKey(old(tasks)[t], tasks[t]) && tasks[t].phase.Recheck? && backend == old(backend)
    {
      var task := tasks[t].(phase := Recheck);
      owner := owner[task.flight := t];
      Move(t, Acquire, task, Nothing);
    }

    /** The second lookup returns; a hit leaves the flight, anything else loads. */
    method AfterRecheck(t: TaskId, ok: bool)
      requires Ready(t, Rechecked)
      modifies this
      ensures Valid()
      ensures Alone(old(Model()), Model(), t)
      ensures SameKey(old(tasks)[t], tasks[t]) && backend == old(backend)
      ensures ok && Fresh(cfg, old(Model()), old(tasks)[t]).Some? ==>
                Answers(tasks[t], Fresh(cfg, old(Model()), old(tasks)[t]))
      ensures !(ok && Fresh(cfg, old(Model()), old(tasks)[t]).Some?) ==> tasks[t].phase.LoadLocked?
      ensures ok && Fresh(cfg, old(Model()), old(tasks)[t]).Some? ==>
                trace == old(trace) + [Call(t, Rechecked), Call(t, Unlock), Call(t, Release), Call(t, DropArc)]
      ensures !(ok && Fresh(cfg, old(Model()), old(tasks)[t]).Some?) ==>
                trace == old(trace) + [Call(t, if ok then Rechecked else RecheckFails)]
    {
      var hit := SecondLookup(t, ok);
      if hit {
        Leave(t);
      }
    }

    method SecondLookup(t: TaskId, ok: bool) returns (hit: bool)
      requires Ready(t, Rechecked)
      modifies this
      ensures Valid() && trace == old(trace) + [Call(t, if ok then Rechecked else RecheckFails)]
      ensures hit <==> ok && Fresh(cfg, old(Model()), old(tasks)[t]).Some?
      ensures Alone(old(Model()), Model(), t)
      ensures SameKey(old(tasks)[t], tasks[t]) && backend == old(backend)
      ensures if hit then tasks[t].phase.Unlocking? && Some(tasks[t].value) == Fresh(cfg, old(Model()), old(tasks)[t])
                          && tasks[t].outcome == Answered(tasks[t].value)
              else tasks[t].phase.LoadLocked?
    {
      var found, task := None, tasks[t];
      if ok {
        found := Cached(t);
      }
      hit := found.Some?;
      if hit {
        task := task.(phase := Unlocking, value := found.value, outcome := Answered(found.value));
      } else {
        task := task.(phase := LoadLocked);
      }
      var mark := if hit then RecheckHit else if ok then Load else FailedRecheck;
      Move(t, if ok then Rechecked else RecheckFails, task, mark);
    }

    /** The loader returns, with `size` bytes or an error. */
    method AfterLoader(t: TaskId, result: Option<nat>, encodes: bool)
      requires Ready(t, LoaderFails)
      modifies this
      ensures Valid()
      ensures Alone(old(Model()), Model(), t)
      ensures backend == old(backend)
      ensures old(tasks)[t].phase.LoadAlone? ==> flights == old(flights) && metrics == old(metrics)
      ensures var keyed := !old(tasks)[t].phase.LoadAlone?;
              match result
              case None => tasks[t].phase.Finished? && tasks[t].outcome == LoaderFailed
              case Some(size) =>
                var payload := Payload(old(tasks)[t].request, world.database, size);
                if keyed && size <= cfg.maxValueSize && encodes
                then Sealing(cfg, world, old(tasks)[t].(value := payload), tasks[t])
                else tasks[t].phase.Finished? && tasks[t].outcome ==
                       if keyed && size <= cfg.maxValueSize then EncodingFailed else Answered(payload)
      ensures var alone := old(tasks)[t].phase.LoadAlone?;
              trace == old(trace) +
                match result
                case None => if alone then [Call(t, LoaderFails)] else [Call(t, LoaderFails), Call(t, DropArc)]
                case Some(size) =>
                  if alone then [Call(t, LoaderReturns(size))]
                  else if size > cfg.maxValueSize then
                    [Call(t, LoaderReturns(size)), Call(t, Encoded), Call(t, Unlock), Call(t, Release),
                     Call(t, DropArc)]
                  else if encodes then [Call(t, LoaderReturns(size)), Call(t, Encoded)]
                  else [Call(t, LoaderReturns(size)), Call(t, EncodeFails), Call(t, DropArc)]
    {
      var alone := tasks[t].phase.LoadAlone?;
      match result
      case None =>
        Unwind(t, LoaderFails, LoaderFailed);
      case Some(size) =>
        TakePayload(t, size);
        if !alone {
          Encode(t, encodes);
        }
    }

    /** The payload is there: a call without a key is done with it. */
    method TakePayload(t: TaskId, size: nat)
      requires Ready(t, LoaderReturns(size))
      modifies this
      ensures Valid() && trace == old(trace) + [Call(t, LoaderReturns(size))]
      ensures Alone(old(Model()), Model(), t)
      ensures SameKey(old(tasks)[t], tasks[t]) && backend == old(backend)
      ensures flights == old(flights) && metrics == old(metrics)
      ensures tasks[t].value == Payload(old(tasks)[t].request, world.database, size)
      ensures if old(tasks)[t].phase.LoadAlone?
              then tasks[t].phase.Finished? && tasks[t].outcome == Answered(tasks[t].value)
              else tasks[t].phase.Encoding?
    {
      var payload := Payload(tasks[t].request, world.database, size);
      var task := tasks[t].(value := payload);
      if task.phase.LoadAlone? {
        task := task.(phase := Finished, outcome := Answered(payload));
      } else {
        task := task.(phase := Encoding);
      }
      Move(t, LoaderReturns(size), task, Nothing);
    }

    /** The size limit, the envelope, and on to `put`; or straight out of the flight. */
    method Encode(t: TaskId, encodes: bool)
      requires Ready(t, Encoded)
      modifies this
      ensures Valid()
      ensures Alone(old(Model()), Model(), t)
      ensures backend == old(backend)
      ensures if old(tasks)[t].value.size <= cfg.maxValueSize && encodes
              then Sealing(cfg, world, old(tasks)[t], tasks[t])
              else tasks[t].phase.Finished? && tasks[t].outcome ==
                     if old(tasks)[t].value.size > cfg.maxValueSize then Answered(old(tasks)[t].value)
                     else EncodingFailed
      ensures trace == old(trace) +
                if old(tasks)[t].value.size > cfg.maxValueSize then
                  [Call(t, Encoded), Call(t, Unlock), Call(t, Release), Call(t, DropArc)]
                else if encodes then [Call(t, Encoded)]
                else [Call(t, EncodeFails), Call(t, DropArc)]
    {
      var fits := tasks[t].value.size <= cfg.maxValueSize;
      if fits && !encodes {
        Unwind(t, EncodeFails, EncodingFailed);
        return;
      }
      Seal(t);
      if !fits {
        Leave(t);
      }
    }

    /** `CacheEnvelope::new`, unless the value is too large to be put. */
    method Seal(t: TaskId)
      requires Ready(t, Encoded)
      modifies this
      ensures Valid() && trace == old(trace) + [Call(t, Encoded)]
      ensures Alone(old(Model()), Model(), t)
      ensures backend == old(backend)
      ensures if old(tasks)[t].value.size <= cfg.maxValueSize then Sealing(cfg, world, old(tasks)[t], tasks[t])
              else tasks[t].phase.Unlocking? && tasks[t].outcome == Answered(old(tasks)[t].value)
    {
      var task := tasks[t];
      if task.value.size <= cfg.maxValueSize {
        task := task.(phase := Putting, expiresAt := SaturatingAdd(world.now, cfg.ttlMs));
      } else {
        task := task.(phase := Unlocking, outcome := Answered(task.value));
      }
      Move(t, Encoded, task, Nothing);
    }

    /** `backend.put` returns: out of the flight, whatever it says. */
    method AfterPut(t: TaskId, ok: bool)
      requires Ready(t, PutDone)
      modifies this
      ensures Valid()
      ensures Alone(old(Model()), Model(), t)
      ensures tasks[t].phase.Finished? && tasks[t].outcome == Answered(old(tasks)[t].value)
      ensures backend == NextBackend(cfg, old(backend), old(tasks)[t], if ok then PutDone else PutFails)
      ensures trace == old(trace) +
                [Call(t, if ok then PutDone else PutFails), Call(t, Unlock), Call(t, Release), Call(t, DropArc)]
    {
      Publish(t, ok);
      Leave(t);
    }

    /** A failed put is counted, and may still land later. */
    method Publish(t: TaskId, ok: bool)
      requires Ready(t, PutDone)
      modifies this
      ensures Valid() && trace == old(trace) + [Call(t, if ok then PutDone else PutFails)]
      ensures Alone(old(Model()), Model(), t)
      ensures tasks[t].phase.Unlocking? && tasks[t].outcome == Answered(old(tasks)[t].value)
      ensures backend == NextBackend(cfg, old(backend), old(tasks)[t], if ok then PutDone else PutFails)
    {
      var d, envelope := Digest(cfg, tasks[t]), Envelope(tasks[t].generation, tasks[t].expiresAt, tasks[t].value);
      if ok {
        backend := backend.(store := backend.store[d := Sealed(envelope)]);
      } else {
        backend := backend.(late := backend.late + {(d, envelope)});
      }
      var task := tasks[t].(phase := Unlocking, outcome := Answered(tasks[t].value));
      Move(t, if ok then PutDone else PutFails, task, if ok then Nothing else FailedPut);
    }

    /** `drop(guard)`, `release_flight`, and the end of the scope. */
    method Leave(t: TaskId)
      requires Ready(t, Unlock)
      modifies this
      ensures Valid() && trace == old(trace) + [Call(t, Unlock), Call(t, Release), Call(t, DropArc)]
      ensures Alone(old(Model()), Model(), t)
      ensures Ends(old(tasks)[t], tasks[t], old(tasks)[t].outcome) && backend == old(backend)
    {
      DropGuard(t);
      ReleaseFlight(t);
      Drop(t);
    }

    method DropGuard(t: TaskId)
      requires Ready(t, Unlock)
      modifies this
      ensures Valid() && trace == old(trace) + [Call(t, Unlock)]
      ensures Alone(old(Model()), Model(), t)
      ensures Keeps(old(tasks)[t], tasks[t]) && tasks[t].phase.Releasing? && backend == old(backend)
    {
      owner := owner - {tasks[t].flight};
      Move(t, Unlock, tasks[t].(phase := Releasing), Nothing);
    }

    method ReleaseFlight(t: TaskId)
      requires Ready(t, Release)
      modifies this
      ensures Valid() && trace == old(trace) + [Call(t, Release)]
      ensures Alone(old(Model()), Model(), t)
      ensures Keeps(old(tasks)[t], tasks[t]) && tasks[t].phase.Dropping? && backend == old(backend)
    {
      Reclaim(Digest(cfg, tasks[t]), tasks[t].flight);
      Move(t, Release, tasks[t].(phase := Dropping), Nothing);
    }

    /** `release_flight`: the entry goes if it is this flight and its count is two. */
    method Reclaim(d: string, flight: FlightId)
      requires CountsHold(strong, tasks, flights)
      modifies this`flights, this`strong
      ensures CountsHold(strong, tasks, flights)
      ensures Table(flights, nextFlight, owner) ==
              Protocol.ReleaseFlight(tasks, old(Table(flights, nextFlight, owner)), d, flight)
    {
      assert CountOf(strong, flight) == StrongCount(tasks, flights, flight);
      if d in flights && flights[d] == flight && CountOf(strong, flight) == 2 {
        Unlisted(strong, tasks, flights, d);
        strong := strong[flight := CountOf(strong, flight) - 1];
        flights := flights - {d};
      }
    }

    method Drop(t: TaskId)
      requires Ready(t, DropArc)
      modifies this
      ensures Valid() && trace == old(trace) + [Call(t, DropArc)]
      ensures Alone(old(Model()), Model(), t) && flights == old(flights) && metrics == old(metrics)
      ensures Ends(old(tasks)[t], tasks[t], old(tasks)[t].outcome) && backend == old(backend)
    {
      var flight, task := tasks[t].flight, tasks[t].(phase := Finished);
      Dropped(strong, tasks, flights, t, task);
      strong := strong[flight := CountOf(strong, flight) - 1];
      tasks := tasks[t := task];
      Log(Call(t, DropArc));
    }

    /** Leaving early drops the guard, if the call has one. */
    method DropGuardEarly(t: TaskId, a: Action)
      requires Ready(t, a) && (a.LoaderFails? || a.EncodeFails? || a.Cancel?)
      modifies this`owner
      ensures Table(flights, nextFlight, owner) == NextTable(cfg, old(Model()), t, a)
    {
      if Critical(tasks[t].phase) {
        owner := owner - {tasks[t].flight};
      }
    }

    /** A put that is abandoned may still land. */
    method AbandonPut(t: TaskId, a: Action)
      requires t < |tasks| && (a.LoaderFails? || a.EncodeFails? || a.Cancel?)
      modifies this`backend
      ensures backend == NextBackend(cfg, old(backend), tasks[t], a)
    {
      var task := tasks[t];
      if a.Cancel? && task.phase.Putting? {
        var envelope := Envelope(task.generation, task.expiresAt, task.value);
        backend := backend.(late := backend.late + {(Digest(cfg, task), envelope)});
      }
    }

    /** An error, or the future being dropped at an await: the guard goes first ... */
    method StopAt(t: TaskId, a: Action, outcome: Outcome)
      requires Ready(t, a) && Stops(a, outcome)
      modifies this
      ensures Valid() && trace == old(trace) + [Call(t, a)]
      ensures Alone(old(Model()), Model(), t)
      ensures tasks[t].phase == if InFlight(old(tasks)[t].phase) then Dropping else Finished
      ensures tasks[t].outcome == outcome
      ensures !a.Cancel? ==> backend == old(backend)
      ensures flights == old(flights) && metrics == old(metrics)
    {
      StopsUnwind(cfg, Model(), tasks[t], a, outcome);
      DropGuardEarly(t, a);
      AbandonPut(t, a);
      var phase := if InFlight(tasks[t].phase) then Dropping else Finished;
      Move(t, a, tasks[t].(phase := phase, outcome := outcome), Nothing);
    }

    /** ... then the clone. */
    method Unwind(t: TaskId, a: Action, outcome: Outcome)
      requires Ready(t, a) && Stops(a, outcome)
      modifies this
      ensures Valid()
      ensures Alone(old(Model()), Model(), t)
      ensures tasks[t].phase.Finished? && tasks[t].outcome == outcome && (!a.Cancel? ==> backend == old(backend))
      ensures flights == old(flights) && metrics == old(metrics)
      ensures trace == old(trace) +
                if InFlight(old(tasks)[t].phase) then [Call(t, a), Call(t, DropArc)] else [Call(t, a)]
    {
      var holding := InFlight(tasks[t].phase);
      StopAt(t, a, outcome);
      if holding {
        Drop(t);
      }
    }

    /**
     * A whole call while nobody else is under way, given how each await ends: it answers with a fresh entry
     * if a lookup can find one, and otherwise with what its loader says; what it loads it stores.
     */
    method GetOrLoad(request: CacheKeyInput, inTransaction: bool, awaits: Awaits) returns (t: TaskId)
      requires Valid() && forall u | 0 <= u < |tasks| :: tasks[u].phase.Finished?
      modifies this
      ensures Valid() && t == |old(tasks)| && |tasks| == t + 1 && tasks[t].phase.Finished?
      ensures world == old(world)
      ensures tasks[t].outcome == Result(cfg, old(Model()), request, inTransaction, awaits)
      ensures backend == Left(cfg, old(Model()), request, inTransaction, awaits)
      ensures GoesPast(cfg, request, inTransaction) ==>
                && tasks[t].outcome == Loaded(old(Model()), request, awaits.loader)
                && backend == old(backend) && flights == old(flights) && CountsBypass(old(metrics), metrics)
      ensures !GoesPast(cfg, request, inTransaction) && awaits.generation && (awaits.lookup || awaits.recheck) ==>
                var found := Fresh(cfg, old(Model()), KeyedTask(cfg, old(Model()), request, inTransaction));
                found.Some? ==> tasks[t].outcome == Answered(found.value) && backend == old(backend)
    {
      t := Start(request, inTransaction);
      if tasks[t].phase.LoadAlone? {
        AfterLoader(t, awaits.loader, awaits.encodes);
        return;
      }
      AfterGeneration(t, awaits.generation);
      if !awaits.generation {
        AfterLoader(t, awaits.loader, awaits.encodes);
        return;
      }
      assert SameKey(tasks[t], KeyedTask(cfg, old(Model()), request, inTransaction));
      KeyedAlone(t, awaits);
    }

    /** ... once the generation is read. */
    method KeyedAlone(t: TaskId, awaits: Awaits)
      requires Ready(t, LookedUp) && forall u | 0 <= u < |tasks| && u != t :: tasks[u].phase.Finished?
      modifies this
      ensures Valid() && Alone(old(Model()), Model(), t) && tasks[t].phase.Finished?
      ensures tasks[t].outcome == KeyedResult(cfg, old(Model()), old(tasks)[t], awaits)
      ensures backend == KeyedLeft(cfg, old(Model()), old(tasks)[t], awaits)
    {
      AfterLookup(t, awaits.lookup);
      if tasks[t].phase.Waiting? {
        FreeLock(cfg, history, trace, t);
        LockedAlone(t, awaits);
      }
    }

    /** ... once a first lookup has missed. */
    method LockedAlone(t: TaskId, awaits: Awaits)
      requires Ready(t, Acquire)
      modifies this
      ensures Valid() && Alone(old(Model()), Model(), t) && tasks[t].phase.Finished?
      ensures var found := Fresh(cfg, old(Model()), old(tasks)[t]);
              if awaits.recheck && found.Some?
              then tasks[t].outcome == Answered(found.value) && backend == old(backend)
              else
                && tasks[t].outcome == LoadedResult(cfg, old(Model()), old(tasks)[t], awaits)
                && backend == LoadedLeft(cfg, old(Model()), old(tasks)[t], awaits)
    {
      AfterLock(t);
      AfterRecheck(t, awaits.recheck);
      if tasks[t].phase.LoadLocked? {
        LoadAndStore(t, awaits);
      }
    }

    method LoadAndStore(t: TaskId, awaits: Awaits)
      requires Ready(t, LoaderFails) && tasks[t].phase.LoadLocked?
      modifies this
      ensures Valid() && Alone(old(Model()), Model(), t) && tasks[t].phase.Finished?
      ensures tasks[t].outcome == LoadedResult(cfg, old(Model()), old(tasks)[t], awaits)
      ensures backend == LoadedLeft(cfg, old(Model()), old(tasks)[t], awaits)
    {
      AfterLoader(t, awaits.loader, awaits.encodes);
      if tasks[t].phase.Putting? {
        AfterPut(t, awaits.put);
      }
    }

    /** A writer's bump returns: `invalidate_after_commit` counts a success and passes on an error. */
    method AfterBump(w: nat, ok: bool)
      requires Valid() && WriterIs(world, w, Bumped)
      modifies this
      ensures Valid() && trace == old(trace) + [Outside(if ok then BumpReturns(w) else BumpFails(w))]
      ensures world.invalidations == old(world).invalidations + if ok then 1 else 0
    {
      var writer := world.writers[w];
      if ok {
        var newest := Max(writer.commit, AcknowledgedCommit(world, writer.namespace));
        world := world.(writers := world.writers[w := writer.(phase := Acknowledged)],
                        acknowledged := world.acknowledged[writer.namespace := newest],
                        invalidations := world.invalidations + 1);
      } else {
        world := world.(writers := world.writers[w := writer.(phase := Failed)]);
      }
      Log(Outside(if ok then BumpReturns(w) else BumpFails(w)));
    }

    /** Whatever else the database, the clock and the backend do. */
    method Environment(e: Event)
      requires Valid() && (e.Trouble? || e.Outside?) && Enabled(cfg, Model(), e)
      modifies this
      ensures Valid() && trace == old(trace) + [e]
    {
      match e {
        case Trouble(mishap) => backend := Damaged(backend, mishap);
        case Outside(change) => world := NextWorld(world, change);
      }
      Log(e);
    }
  }

  /** What is proved of runs holds of the object at every moment: here, one loader per digest ... */
  lemma ObjectHasOneLoader(c: CacheInterceptor, t: TaskId, u: TaskId)
    requires c.Valid() && t < |c.tasks| && u < |c.tasks|
    requires Critical(c.tasks[t].phase) && Critical(c.tasks[u].phase)
    requires Digest(c.cfg, c.tasks[t]) == Digest(c.cfg, c.tasks[u])
    ensures t == u
  {
    OneLoaderPerDigest(c.cfg, c.history, c.trace, |c.trace|, t, u);
  }

  /** ... a call that may not use the cache hands on what its loader says, and touches no entry and no flight ... */
  lemma ObjectGoesPast(c: CacheInterceptor, b: nat, j: nat, a: Action)
    requires c.Valid() && b < j < |c.trace| && c.trace[b].Begin? && c.trace[j] == Call(|c.history[b].tasks|, a)
    requires GoesPast(c.cfg, c.trace[b].request, c.trace[b].inTransaction)
    ensures c.history[j + 1].backend == c.history[j].backend && c.history[j + 1].table == c.history[j].table
    ensures |c.history[b].tasks| < |c.history[j + 1].tasks|
    ensures var outcome := c.history[j + 1].tasks[|c.history[b].tasks|].outcome;
            match a
            case LoaderReturns(size) =>
              outcome == Answered(Payload(c.trace[b].request, c.history[j].world.database, size))
            case LoaderFails => outcome.LoaderFailed?
            case Cancel => outcome.Cancelled?
            case _ => false
  {
    BypassHandsOnItsLoader(c.cfg, c.history, c.trace, b, j, a);
  }

  /** ... and the fence, for a call that began after a writer was acknowledged. */
  lemma ObjectIsFenced(c: CacheInterceptor, b: nat, w: nat, answer: Payload)
    requires c.Valid() && ProtocolKeys.NoCollision(c.cfg, c.tasks)
    requires b < |c.trace| && c.trace[b].Begin? && WriterIs(c.history[b].world, w, Acknowledged)
    requires c.history[b].world.writers[w].namespace == c.trace[b].request.namespace
    requires |c.history[b].tasks| < |c.tasks| && c.tasks[|c.history[b].tasks|].outcome == Answered(answer)
    ensures c.history[b].world.writers[w].commit <= answer.readAt
    ensures ProtocolKeys.SameAnswer(c.cfg, answer.query, c.trace[b].request)
  {
    ProtocolFence.GenerationFence(c.cfg, c.history, c.trace, b, w, |c.trace|, answer);
  }
}
