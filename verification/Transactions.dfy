/**
 * Transactions and the cache: the listener's buffers, the flushes they turn into, and the shared backend,
 * as a machine of small steps. Flushes run step by step beside everything else.
 */
module Transactions {
  import opened CacheKeys
  import opened Common
  import Hooks

  type TxId = int
  type Value = Hooks.Value

  /** `digest` is the key of a query at a generation; `deferred` is the Defer mode, otherwise Bypass. */
  datatype Config = Config(deferred: bool, namespace: Bytes, digest: (Bytes, string, nat) -> string)

  /** A key's namespace and generation, with the value stored under it. */
  datatype Entry = Entry(namespace: Bytes, generation: nat, value: Value)

  /** `TransactionalCacheBuffer`: entries to put and namespaces to bump at commit. */
  datatype Buffer = Buffer(pending: map<string, Entry>, cleared: set<Bytes>)

  const EMPTY := Buffer(map[], {})

  /**
   * A buffer taken out of the table at commit: `marked` is what it had marked, `unbumped` and `unput` what
   * remains to be done; an error aborts it.
   */
  datatype Flush = Flush(marked: set<Bytes>, unbumped: set<Bytes>, unput: map<string, Entry>, aborted: bool)

  datatype Write = BumpOf(namespace: Bytes) | PutOf(digest: string, entry: Entry)

  /** `log` records every write that reached the backend. */
  datatype Backend = Backend(store: map<string, Entry>, generations: map<Bytes, nat>, log: seq<Write>)

  datatype State = State(buffers: map<TxId, Buffer>, flushes: seq<Flush>, backend: Backend)

  const INITIAL := State(map[], [], Backend(map[], map[], []))

  /** How a call of the backend ends: `lands` says whether it took effect, `ok` what the caller is told. */
  datatype Answer = Done | Lost | FailedButDone

  /** The hooks of transaction `tx` look for its buffer under `task`, which may be another id. */
  datatype Event =
    | Begin(tx: TxId)
    | Query(tx: TxId, task: TxId, namespace: Bytes, query: string, value: Value, lag: nat, direct: Answer)
    | Dml(tx: TxId, task: TxId, namespace: Bytes)
    | CommitSuccess(tx: TxId)
    | CommitFailed(tx: TxId)
    | Rollback(tx: TxId)
    | RollbackFailed(tx: TxId)
    | FlushBump(flush: nat, namespace: Bytes, answer: Answer)
    | FlushPut(flush: nat, digest: string, answer: Answer)
    | Others(write: Write)

  function Generation(backend: Backend, namespace: Bytes): nat {
    if namespace in backend.generations then backend.generations[namespace] else 0
  }

  function Written(backend: Backend, write: Write): Backend {
    match write
    case BumpOf(ns) =>
      Backend(backend.store, backend.generations[ns := Generation(backend, ns) + 1], backend.log + [write])
    case PutOf(d, entry) => Backend(backend.store[d := entry], backend.generations, backend.log + [write])
  }

  function Attempted(backend: Backend, write: Write, answer: Answer): Backend {
    if answer.Lost? then backend else Written(backend, write)
  }

  /** The generation under which `after` builds its key: the backend's, `lag` bumps ago. */
  function GenerationSeen(backend: Backend, namespace: Bytes, lag: nat): nat {
    if lag <= Generation(backend, namespace) then Generation(backend, namespace) - lag else 0
  }

  /** The write that an event makes, if any. */
  function WriteOf(cfg: Config, s: State, e: Event): Option<Write> {
    match e
    case Query(_, task, ns, query, value, lag, direct) =>
      var generation := GenerationSeen(s.backend, ns, lag);
      if (cfg.deferred && task in s.buffers) || direct.Lost? then None
      else Some(PutOf(cfg.digest(ns, query, generation), Entry(ns, generation, value)))
    case FlushBump(k, ns, answer) => if CanBump(s, k, ns) && !answer.Lost? then Some(BumpOf(ns)) else None
    case FlushPut(k, d, answer) =>
      if CanPut(s, k, d) && !answer.Lost? then Some(PutOf(d, s.flushes[k].unput[d])) else None
    case Others(write) => Some(write)
    case _ => None
  }

  lemma StepWrites(cfg: Config, s: State, e: Event)
    ensures Step(cfg, s, e).backend ==
            match WriteOf(cfg, s, e) case Some(write) => Written(s.backend, write) case None => s.backend
  {
  }

  /** The end of a query in a transaction: into the buffer if one is open, else straight to the backend. */
  function QueryStep(cfg: Config, s: State, e: Event): State
    requires e.Query?
  {
    var generation := GenerationSeen(s.backend, e.namespace, e.lag);
    var d, entry := cfg.digest(e.namespace, e.query, generation), Entry(e.namespace, generation, e.value);
    if cfg.deferred && e.task in s.buffers then
      var buffer := s.buffers[e.task];
      s.(buffers := s.buffers[e.task := buffer.(pending := buffer.pending[d := entry])])
    else s.(backend := Attempted(s.backend, PutOf(d, entry), e.direct))
  }

  function DmlStep(cfg: Config, s: State, e: Event): State
    requires e.Dml?
  {
    if cfg.deferred && e.task in s.buffers then
      var buffer := s.buffers[e.task];
      s.(buffers := s.buffers[e.task := buffer.(cleared := buffer.cleared + {e.namespace})])
    else s
  }

  /** The flush that a committed buffer becomes. */
  function FlushOf(buffer: Buffer): Flush {
    Flush(buffer.cleared, buffer.cleared, buffer.pending, false)
  }

  /** Commit takes the buffer out and starts its flush; in Bypass mode it bumps the listener's namespace. */
  function CommitStep(cfg: Config, s: State, tx: TxId): State {
    if !cfg.deferred then s.(flushes := s.flushes + [FlushOf(Buffer(map[], {cfg.namespace}))])
    else if tx in s.buffers then State(s.buffers - {tx}, s.flushes + [FlushOf(s.buffers[tx])], s.backend)
    else s
  }

  /** The flush is at a point where it bumps `namespace`. */
  predicate CanBump(s: State, k: nat, namespace: Bytes) {
    k < |s.flushes| && !s.flushes[k].aborted && namespace in s.flushes[k].unbumped
  }

  /** The flush has bumped everything it marked, and still has digest `d` to put. */
  predicate CanPut(s: State, k: nat, d: string) {
    k < |s.flushes| && !s.flushes[k].aborted && s.flushes[k].unbumped == {} && d in s.flushes[k].unput
  }

  function FlushBumpStep(s: State, k: nat, namespace: Bytes, answer: Answer): State
    requires CanBump(s, k, namespace)
  {
    var f := s.flushes[k];
    var f' := if answer.Done? then f.(unbumped := f.unbumped - {namespace}) else f.(aborted := true);
    State(s.buffers, s.flushes[k := f'], Attempted(s.backend, BumpOf(namespace), answer))
  }

  function FlushPutStep(s: State, k: nat, d: string, answer: Answer): State
    requires CanPut(s, k, d)
  {
    var f := s.flushes[k];
    var f' := if answer.Done? then f.(unput := f.unput - {d}) else f.(aborted := true);
    State(s.buffers, s.flushes[k := f'], Attempted(s.backend, PutOf(d, f.unput[d]), answer))
  }

  /** An event that cannot happen in the state changes nothing. */
  function Step(cfg: Config, s: State, e: Event): State {
    match e
    case Begin(tx) => if cfg.deferred then s.(buffers := s.buffers[tx := EMPTY]) else s
    case Query(_, _, _, _, _, _, _) => QueryStep(cfg, s, e)
    case Dml(_, _, _) => DmlStep(cfg, s, e)
    case CommitSuccess(tx) => CommitStep(cfg, s, tx)
    case CommitFailed(tx) => s.(buffers := s.buffers - {tx})
    case Rollback(tx) => s.(buffers := s.buffers - {tx})
    case RollbackFailed(tx) => s.(buffers := s.buffers - {tx})
    case FlushBump(k, ns, answer) => if CanBump(s, k, ns) then FlushBumpStep(s, k, ns, answer) else s
    case FlushPut(k, d, answer) => if CanPut(s, k, d) then FlushPutStep(s, k, d, answer) else s
    case Others(write) => s.(backend := Written(s.backend, write))
  }

  function RunFrom(cfg: Config, s: State, events: seq<Event>): State {
    if events == [] then s else Step(cfg, RunFrom(cfg, s, events[..|events| - 1]), events[|events| - 1])
  }

  function Run(cfg: Config, events: seq<Event>): State {
    RunFrom(cfg, INITIAL, events)
  }
}
