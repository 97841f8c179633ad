/** The transaction buffer and the listener as the objects they are, tied step by step to the machine. */
module Listeners {
  import opened Common
  import opened CacheKeys
  import opened Transactions
  import Hooks

  /** A backend whose calls may fail, with or without taking effect; `attempts` records what it was asked to write. */
  class SharedBackend {
    var store: map<string, Entry>
    var generations: map<Bytes, nat>
    ghost var log: seq<Write>
    ghost var attempts: seq<Write>

    ghost function Model(): Backend
      reads this
    {
      Backend(store, generations, log)
    }

    constructor ()
      ensures Model() == INITIAL.backend && attempts == []
    {
      store, generations, log, attempts := map[], map[], [], [];
    }

    method Read(namespace: Bytes) returns (generation: nat)
      ensures generation == Generation(Model(), namespace)
    {
      generation := if namespace in generations then generations[namespace] else 0;
    }

    method Bump(namespace: Bytes) returns (answer: Answer)
      modifies this
      ensures Model() == Attempted(old(Model()), BumpOf(namespace), answer)
      ensures attempts == old(attempts) + [BumpOf(namespace)]
    {
      answer := *;
      attempts := attempts + [BumpOf(namespace)];
      if !answer.Lost? {
        var generation := Read(namespace);
        generations := generations[namespace := generation + 1];
        log := log + [BumpOf(namespace)];
      }
    }

    method Put(d: string, entry: Entry) returns (answer: Answer)
      modifies this
      ensures Model() == Attempted(old(Model()), PutOf(d, entry), answer)
      ensures attempts == old(attempts) + [PutOf(d, entry)]
    {
      answer := *;
      attempts := attempts + [PutOf(d, entry)];
      if !answer.Lost? {
        store := store[d := entry];
        log := log + [PutOf(d, entry)];
      }
    }
  }

  // ------------------------------------------------------------------- flushing

  /** `steps` are steps of flush `k`, each possible when its turn comes, leading from `a` to `b`. */
  ghost predicate Flushes(cfg: Config, a: State, steps: seq<Event>, k: nat, b: State) {
    && RunFrom(cfg, a, steps) == b
    && forall i | 0 <= i < |steps| :: FlushStepAt(cfg, a, steps, k, i)
  }

  ghost predicate FlushStepAt(cfg: Config, a: State, steps: seq<Event>, k: nat, i: nat)
    requires i < |steps|
  {
    match steps[i]
    case FlushBump(f, ns, _) => f == k && CanBump(RunFrom(cfg, a, steps[..i]), k, ns)
    case FlushPut(f, d, _) => f == k && CanPut(RunFrom(cfg, a, steps[..i]), k, d)
    case _ => false
  }

  lemma FlushesGrow(cfg: Config, a: State, steps: seq<Event>, k: nat, b: State, e: Event)
    requires Flushes(cfg, a, steps, k, b)
    requires
      || (e.FlushBump? && e.flush == k && CanBump(b, k, e.namespace))
      || (e.FlushPut? && e.flush == k && CanPut(b, k, e.digest))
    ensures Flushes(cfg, a, steps + [e], k, Step(cfg, b, e))
  {
    var more := steps + [e];
    assert more[..|steps|] == steps;
    forall i | 0 <= i < |more| ensures FlushStepAt(cfg, a, more, k, i) {
      if i < |steps| {
        assert more[..i] == steps[..i] && FlushStepAt(cfg, a, steps, k, i);
      }
    }
  }

  /** One entry moves from the rest into the store. */
  lemma EntryMoves(store: map<string, Entry>, rest: map<string, Entry>, d: string)
    requires d in rest
    ensures store[d := rest[d]] + (rest - {d}) == store + rest
  {
  }

  lemma RestShrinks(rest: map<string, Entry>, d: string)
    requires d in rest
    ensures |rest - {d}| < |rest|
  {
    assert rest.Keys == (rest - {d}).Keys + {d};
  }

  /** The machine's side of one put. */
  lemma PutAdvances(cfg: Config, a: State, steps: seq<Event>, k: nat, b: State, d: string, answer: Answer)
    requires Flushes(cfg, a, steps, k, b) && CanPut(b, k, d)
    ensures var b' := FlushPutStep(b, k, d, answer);
            && Flushes(cfg, a, steps + [FlushPut(k, d, answer)], k, b') && b'.buffers == b.buffers
            && b'.backend == Attempted(b.backend, PutOf(d, b.flushes[k].unput[d]), answer)
            && |b'.flushes| == |b.flushes| && b'.flushes[k].aborted == !answer.Done?
            && (answer.Done? ==> b'.flushes[k] == b.flushes[k].(unput := b.flushes[k].unput - {d}))
  {
    FlushesGrow(cfg, a, steps, k, b, FlushPut(k, d, answer));
  }

  /** The machine's side of one bump. */
  lemma BumpAdvances(cfg: Config, a: State, steps: seq<Event>, k: nat, b: State, ns: Bytes, answer: Answer)
    requires Flushes(cfg, a, steps, k, b) && CanBump(b, k, ns)
    ensures var b' := FlushBumpStep(b, k, ns, answer);
            && Flushes(cfg, a, steps + [FlushBump(k, ns, answer)], k, b') && b'.buffers == b.buffers
            && b'.backend == Attempted(b.backend, BumpOf(ns), answer)
            && |b'.flushes| == |b.flushes| && b'.flushes[k].aborted == !answer.Done?
            && (answer.Done? ==> b'.flushes[k] == b.flushes[k].(unbumped := b.flushes[k].unbumped - {ns}))
  {
    FlushesGrow(cfg, a, steps, k, b, FlushBump(k, ns, answer));
  }

  /** What a flush that is going well has still to do. */
  predicate Remains(f: Flush, marked: set<Bytes>, unbumped: set<Bytes>, unput: map<string, Entry>) {
    f.marked == marked && f.unbumped == unbumped && f.unput == unput && !f.aborted
  }

  /** Each namespace of `done` has been bumped once since `a`. */
  ghost predicate BumpedOnce(a: Backend, b: Backend, done: set<Bytes>) {
    forall ns :: Generation(b, ns) == Generation(a, ns) + if ns in done then 1 else 0
  }

  lemma OneMoreBumped(a: Backend, b: Backend, all: set<Bytes>, rest: set<Bytes>, ns: Bytes)
    requires BumpedOnce(a, b, all - rest) && ns in rest && rest <= all
    ensures BumpedOnce(a, Written(b, BumpOf(ns)), all - (rest - {ns}))
  {
  }

  /** The step's call of the backend succeeded. */
  predicate Went(e: Event) {
    (e.FlushBump? || e.FlushPut?) && e.answer.Done?
  }

  ghost predicate AllWent(steps: seq<Event>) {
    forall i | 0 <= i < |steps| :: Went(steps[i])
  }

  /** What a step of a flush of `pending` asks the backend to write. */
  predicate Asks(pending: map<string, Entry>, e: Event, write: Write) {
    match e
    case FlushBump(_, ns, _) => write.BumpOf? && write.namespace == ns
    case FlushPut(_, d, _) => write.PutOf? && write.digest == d && d in pending && write.entry == pending[d]
    case _ => false
  }

  /** The steps are what the backend has been asked since `from`, one by one. */
  ghost predicate Tried(pending: map<string, Entry>, steps: seq<Event>, attempts: seq<Write>, from: nat) {
    |attempts| == from + |steps| && forall i | 0 <= i < |steps| :: Asks(pending, steps[i], attempts[from + i])
  }

  lemma OneMoreTried(
      pending: map<string, Entry>, steps: seq<Event>, e: Event, before: seq<Write>, write: Write, from: nat)
    requires Tried(pending, steps, before, from) && Asks(pending, e, write)
    ensures Tried(pending, steps + [e], before + [write], from)
  {
  }

  /**
   * How a flush of `buffer` ends: it is aborted exactly if one of its calls failed; otherwise every marked
   * namespace has been bumped once and every entry put.
   */
  ghost predicate Flushed(buffer: Buffer, a: Backend, b: Backend, f: Flush, steps: seq<Event>) {
    && (f.aborted <==> !AllWent(steps))
    && (!f.aborted ==>
          && f.unbumped == {} && f.unput == map[]
          && b.store == a.store + buffer.pending && BumpedOnce(a, b, buffer.cleared))
  }

  class TransactionalCacheBuffer {
    var pendingAdd: map<string, Entry>
    var clearNamespaces: set<Bytes>

    ghost function Model(): Buffer
      reads this
    {
      Buffer(pendingAdd, clearNamespaces)
    }

    constructor ()
      ensures Model() == EMPTY
    {
      pendingAdd, clearNamespaces := map[], {};
    }

    method Put(d: string, entry: Entry)
      modifies this
      ensures Model() == old(Model()).(pending := old(Model()).pending[d := entry])
    {
      pendingAdd := pendingAdd[d := entry];
    }

    method PendingGet(d: string) returns (value: Option<Value>)
      ensures value == if d in Model().pending then Some(Model().pending[d].value) else None
    {
      value := if d in pendingAdd then Some(pendingAdd[d].value) else None;
    }

    method ClearNamespace(namespace: Bytes)
      modifies this
      ensures Model() == old(Model()).(cleared := old(Model()).cleared + {namespace})
    {
      clearNamespaces := clearNamespaces + {namespace};
    }

    method Discard()
      modifies this
      ensures Model() == EMPTY
    {
      pendingAdd, clearNamespaces := map[], {};
    }

    /**
     * Bumps every marked namespace, then puts every entry; the first failure ends it. `s` is the machine's
     * state when the flush starts, as its flush `k`. The loops take namespaces and entries in any order.
     */
    method FlushTo(backend: SharedBackend, ghost cfg: Config, ghost s: State, ghost k: nat)
      returns (ok: bool, ghost s': State, ghost steps: seq<Event>)
      requires s.backend == backend.Model() && k < |s.flushes| && s.flushes[k] == FlushOf(Model())
      modifies backend
      ensures Flushes(cfg, s, steps, k, s') && s'.backend == backend.Model() && s'.buffers == s.buffers
      ensures k < |s'.flushes| == |s.flushes| && s'.flushes[k].aborted == !ok
      ensures Flushed(Model(), old(backend.Model()), backend.Model(), s'.flushes[k], steps)
      ensures old(backend.attempts) <= backend.attempts
      ensures Tried(pendingAdd, steps, backend.attempts, |old(backend.attempts)|)
    {
      s', steps := s, [];
      ok, s', steps := BumpAll(backend, cfg, s, k);
      if ok {
        ok, s', steps := PutAll(backend, cfg, s, k, s', steps, |old(backend.attempts)|);
      }
    }

    /** One bump, and the machine's side of it. */
    method BumpOne(
        backend: SharedBackend, ns: Bytes, ghost cfg: Config, ghost s: State, ghost k: nat, ghost mid: State,
        ghost before: seq<Event>, ghost from: nat)
      returns (ok: bool, ghost s': State, ghost steps: seq<Event>)
      requires Flushes(cfg, s, before, k, mid) && mid.backend == backend.Model() && CanBump(mid, k, ns)
      requires Tried(pendingAdd, before, backend.attempts, from) && AllWent(before)
      modifies backend
      ensures Flushes(cfg, s, steps, k, s') && s'.backend == backend.Model() && s'.buffers == mid.buffers
      ensures old(backend.attempts) <= backend.attempts && Tried(pendingAdd, steps, backend.attempts, from)
      ensures AllWent(steps) <==> ok
      ensures |s'.flushes| == |mid.flushes| && s'.flushes[k].aborted == !ok
      ensures ok ==> s'.flushes[k] == mid.flushes[k].(unbumped := mid.flushes[k].unbumped - {ns})
      ensures ok ==> backend.Model() == Written(old(backend.Model()), BumpOf(ns))
      ensures backend.store == old(backend.store)
    {
      var answer := backend.Bump(ns);
      BumpAdvances(cfg, s, before, k, mid, ns, answer);
      OneMoreTried(pendingAdd, before, FlushBump(k, ns, answer), old(backend.attempts), BumpOf(ns), from);
      s', steps := FlushBumpStep(mid, k, ns, answer), before + [FlushBump(k, ns, answer)];
      assert Went(steps[|before|]) <==> answer.Done?;
      ok := answer.Done?;
    }

    method BumpAll(backend: SharedBackend, ghost cfg: Config, ghost s: State, ghost k: nat)
      returns (ok: bool, ghost s': State, ghost steps: seq<Event>)
      requires s.backend == backend.Model() && k < |s.flushes| && s.flushes[k] == FlushOf(Model())
      modifies backend
      ensures Flushes(cfg, s, steps, k, s') && s'.backend == backend.Model() && s'.buffers == s.buffers
      ensures backend.store == old(backend.store)
      ensures k < |s'.flushes| == |s.flushes| && s'.flushes[k].aborted == !ok && (AllWent(steps) <==> ok)
      ensures ok ==> Remains(s'.flushes[k], clearNamespaces, {}, pendingAdd)
      ensures ok ==> BumpedOnce(old(backend.Model()), backend.Model(), clearNamespaces)
      ensures old(backend.attempts) <= backend.attempts
      ensures Tried(pendingAdd, steps, backend.attempts, |old(backend.attempts)|)
    {
      s', steps := s, [];
      var rest := clearNamespaces;
      while rest != {}
        invariant rest <= clearNamespaces
        invariant Flushes(cfg, s, steps, k, s') && s'.backend == backend.Model() && s'.buffers == s.buffers
        invariant backend.store == old(backend.store) && AllWent(steps)
        invariant k < |s'.flushes| == |s.flushes| && Remains(s'.flushes[k], clearNamespaces, rest, pendingAdd)
        invariant BumpedOnce(old(backend.Model()), backend.Model(), clearNamespaces - rest)
        invariant old(backend.attempts) <= backend.attempts
        invariant Tried(pendingAdd, steps, backend.attempts, |old(backend.attempts)|)
        decreases |rest|
      {
        var ns :| ns in rest;
        OneMoreBumped(old(backend.Model()), backend.Model(), clearNamespaces, rest, ns);
        ok, s', steps := BumpOne(backend, ns, cfg, s, k, s', steps, |old(backend.attempts)|);
        if !ok {
          return;
        }
        rest := rest - {ns};
      }
      ok := true;
    }

    /** One put, and the machine's side of it. */
    method PutOne(
        backend: SharedBackend, d: string, entry: Entry, ghost cfg: Config, ghost s: State, ghost k: nat,
        ghost mid: State, ghost before: seq<Event>, ghost from: nat)
      returns (ok: bool, ghost s': State, ghost steps: seq<Event>)
      requires Flushes(cfg, s, before, k, mid) && mid.backend == backend.Model() && CanPut(mid, k, d)
      requires d in pendingAdd && entry == pendingAdd[d] == mid.flushes[k].unput[d]
      requires Tried(pendingAdd, before, backend.attempts, from) && AllWent(before)
      modifies backend
      ensures Flushes(cfg, s, steps, k, s') && s'.backend == backend.Model() && s'.buffers == mid.buffers
      ensures old(backend.attempts) <= backend.attempts && Tried(pendingAdd, steps, backend.attempts, from)
      ensures AllWent(steps) <==> ok
      ensures |s'.flushes| == |mid.flushes| && s'.flushes[k].aborted == !ok
      ensures ok ==> s'.flushes[k] == mid.flushes[k].(unput := mid.flushes[k].unput - {d})
      ensures ok ==> backend.store == old(backend.store)[d := entry]
      ensures backend.generations == old(backend.generations)
    {
      var answer := backend.Put(d, entry);
      PutAdvances(cfg, s, before, k, mid, d, answer);
      OneMoreTried(pendingAdd, before, FlushPut(k, d, answer), old(backend.attempts), PutOf(d, entry), from);
      s', steps := FlushPutStep(mid, k, d, answer), before + [FlushPut(k, d, answer)];
      assert Went(steps[|before|]) <==> answer.Done?;
      ok := answer.Done?;
    }

    method PutAll(
        backend: SharedBackend, ghost cfg: Config, ghost s: State, ghost k: nat, ghost mid: State,
        ghost before: seq<Event>, ghost from: nat)
      returns (ok: bool, ghost s': State, ghost steps: seq<Event>)
      requires Flushes(cfg, s, before, k, mid) && mid.backend == backend.Model() && mid.buffers == s.buffers
      requires k < |mid.flushes| && Remains(mid.flushes[k], clearNamespaces, {}, pendingAdd)
      requires Tried(pendingAdd, before, backend.attempts, from) && AllWent(before)
      modifies backend
      ensures Flushes(cfg, s, steps, k, s') && s'.backend == backend.Model() && s'.buffers == s.buffers
      ensures k < |s'.flushes| == |mid.flushes| && s'.flushes[k].aborted == !ok && (AllWent(steps) <==> ok)
      ensures ok ==> s'.flushes[k].unbumped == {} && s'.flushes[k].unput == map[]
      ensures ok ==> backend.store == old(backend.store) + pendingAdd
      ensures backend.generations == old(backend.generations)
      ensures old(backend.attempts) <= backend.attempts && Tried(pendingAdd, steps, backend.attempts, from)
    {
      s', steps := mid, before;
      var rest := pendingAdd;
      while rest != map[]
        invariant Flushes(cfg, s, steps, k, s') && s'.backend == backend.Model() && s'.buffers == s.buffers
        invariant k < |s'.flushes| == |mid.flushes| && Remains(s'.flushes[k], clearNamespaces, {}, rest)
        invariant AllWent(steps) && forall d | d in rest :: d in pendingAdd && rest[d] == pendingAdd[d]
        invariant backend.store + rest == old(backend.store) + pendingAdd
        invariant backend.generations == old(backend.generations)
        invariant old(backend.attempts) <= backend.attempts && Tried(pendingAdd, steps, backend.attempts, from)
        decreases |rest|
      {
        var d :| d in rest;
        EntryMoves(backend.store, rest, d);
        RestShrinks(rest, d);
        ok, s', steps := PutOne(backend, d, rest[d], cfg, s, k, s', steps, from);
        if !ok {
          return;
        }
        rest := rest - {d};
      }
      ok := true;
    }
  }

  // ------------------------------------------------------------------- listening

  /** The life-cycle events that the listener is told. */
  predicate LifeCycle(e: Event) {
    e.Begin? || e.CommitSuccess? || e.CommitFailed? || e.Rollback? || e.RollbackFailed?
  }

  /** A single bump of the listener's own namespace, which raises its generation unless it is lost. */
  ghost predicate BumpsOnce(cfg: Config, a: Backend, b: Backend, steps: seq<Event>) {
    && |steps| == 1 && steps[0].FlushBump? && steps[0].namespace == cfg.namespace && b.store == a.store
    && BumpedOnce(a, b, if steps[0].answer.Lost? then {} else {cfg.namespace})
  }

  /** The listener, with the buffer table that it shares with the interceptor's hooks. */
  class CacheTransactionListener {
    const cfg: Config
    const backend: SharedBackend
    var txBuffers: map<TxId, TransactionalCacheBuffer>
    ghost var flushes: seq<Flush>

    /** Each transaction has a buffer of its own. */
    ghost predicate Valid()
      reads this
    {
      forall x, y | x in txBuffers && y in txBuffers && txBuffers[x] == txBuffers[y] :: x == y
    }

    ghost function Buffers(): map<TxId, Buffer>
      reads this, txBuffers.Values
    {
      map x | x in txBuffers :: txBuffers[x].Model()
    }

    ghost function Model(): State
      reads this, txBuffers.Values, backend
    {
      State(Buffers(), flushes, backend.Model())
    }

    constructor (cfg: Config, backend: SharedBackend)
      ensures Valid() && this.cfg == cfg && this.backend == backend && Model() == State(map[], [], backend.Model())
    {
      this.cfg, this.backend, txBuffers, flushes := cfg, backend, map[], [];
    }

    /** The life-cycle event, followed on commit by the steps of its flush. */
    method OnEvent(e: Event) returns (ghost steps: seq<Event>)
      requires Valid() && LifeCycle(e)
      modifies this, backend, txBuffers.Values
      ensures Valid() && Flushes(cfg, Step(cfg, old(Model()), e), steps, |old(flushes)|, Model())
      ensures !e.CommitSuccess? ==> steps == [] && backend.attempts == old(backend.attempts)
      ensures e.CommitSuccess? && cfg.deferred && e.tx in old(txBuffers) ==>
                && |flushes| == |old(flushes)| + 1 && e.tx !in txBuffers
                && Flushed(old(txBuffers[e.tx].Model()), old(backend.Model()), backend.Model(), flushes[|old(flushes)|],
                           steps)
                && Tried(old(txBuffers[e.tx].pendingAdd), steps, backend.attempts, |old(backend.attempts)|)
      ensures e.CommitSuccess? && cfg.deferred && e.tx !in old(txBuffers) ==> backend.attempts == old(backend.attempts)
      ensures e.CommitSuccess? && !cfg.deferred ==> BumpsOnce(cfg, old(backend.Model()), backend.Model(), steps)
      ensures e.CommitSuccess? && !cfg.deferred ==> backend.attempts == old(backend.attempts) + [BumpOf(cfg.namespace)]
      ensures fresh(txBuffers.Values - old(txBuffers.Values))
    {
      steps := [];
      match e
      case Begin(tx) => OnBegin(tx);
      case CommitSuccess(tx) =>
        if cfg.deferred {
          steps := CommitDeferred(tx);
        } else {
          steps := CommitBypass(tx);
        }
      case CommitFailed(tx) => Forget(tx);
      case Rollback(tx) => Discard(tx);
      case RollbackFailed(tx) => Forget(tx);
    }

    method OnBegin(tx: TxId)
      requires Valid()
      modifies this
      ensures Valid() && Model() == Step(cfg, old(Model()), Begin(tx))
      ensures fresh(txBuffers.Values - old(txBuffers.Values))
    {
      if cfg.deferred {
        var buffer := new TransactionalCacheBuffer();
        txBuffers := txBuffers[tx := buffer];
        assert Buffers() == old(Buffers())[tx := EMPTY];
      }
    }

    method Forget(tx: TxId)
      requires Valid()
      modifies this
      ensures Valid() && Model() == Step(cfg, old(Model()), CommitFailed(tx))
      ensures txBuffers.Values <= old(txBuffers.Values)
    {
      txBuffers := txBuffers - {tx};
      assert Buffers() == old(Buffers()) - {tx};
    }

    method Discard(tx: TxId)
      requires Valid()
      modifies this, txBuffers.Values
      ensures Valid() && Model() == Step(cfg, old(Model()), Rollback(tx)) && txBuffers.Values <= old(txBuffers.Values)
    {
      if tx in txBuffers {
        var buffer := txBuffers[tx];
        txBuffers := txBuffers - {tx};
        assert forall x | x in txBuffers :: x in old(txBuffers) && txBuffers[x] != buffer;
        buffer.Discard();
        assert Buffers() == old(Buffers()) - {tx};
      } else {
        assert old(Buffers()) - {tx} == old(Buffers());
      }
    }

    method CommitDeferred(tx: TxId) returns (ghost steps: seq<Event>)
      requires Valid() && cfg.deferred
      modifies this, backend
      ensures Valid() && txBuffers == old(txBuffers) - {tx}
      ensures Flushes(cfg, CommitStep(cfg, old(Model()), tx), steps, |old(flushes)|, Model())
      ensures tx in old(txBuffers) ==>
                && |flushes| == |old(flushes)| + 1
                && Flushed(old(txBuffers[tx].Model()), old(backend.Model()), backend.Model(), flushes[|old(flushes)|],
                           steps)
                && Tried(old(txBuffers[tx].pendingAdd), steps, backend.attempts, |old(backend.attempts)|)
      ensures tx !in old(txBuffers) ==> backend.attempts == old(backend.attempts)
    {
      steps := [];
      if tx in txBuffers {
        var buffer := txBuffers[tx];
        txBuffers := txBuffers - {tx};
        ghost var s, s' := CommitStep(cfg, old(Model()), tx), old(Model());
        assert Buffers() == s.buffers && s.flushes == flushes + [FlushOf(buffer.Model())];
        var ok;
        ok, s', steps := buffer.FlushTo(backend, cfg, s, |flushes|);
        flushes := s'.flushes;
        assert Buffers() == s.buffers;
      } else {
        assert txBuffers == txBuffers - {tx};
      }
    }

    method CommitBypass(tx: TxId) returns (ghost steps: seq<Event>)
      requires Valid() && !cfg.deferred
      modifies this, backend
      ensures Valid() && txBuffers == old(txBuffers)
      ensures Flushes(cfg, CommitStep(cfg, old(Model()), tx), steps, |old(flushes)|, Model())
      ensures BumpsOnce(cfg, old(backend.Model()), backend.Model(), steps)
      ensures backend.attempts == old(backend.attempts) + [BumpOf(cfg.namespace)]
    {
      ghost var s, k := CommitStep(cfg, old(Model()), tx), |flushes|;
      var answer := backend.Bump(cfg.namespace);
      FlushesGrow(cfg, s, [], k, s, FlushBump(k, cfg.namespace, answer));
      steps := [FlushBump(k, cfg.namespace, answer)];
      assert [] + steps == steps;
      flushes := Step(cfg, s, steps[0]).flushes;
      assert Buffers() == s.buffers;
    }

    /**
     * The end of a query in a transaction, as the `after` hook handles it under the policy: `size` is the
     * length of the encoded value, if it encodes. Nothing happens when the policy does not keep the value;
     * otherwise it is a step of the machine, whose direct put is lost unless the value may be stored.
     */
    method AfterQuery(
        policy: Hooks.Policy, tx: TxId, task: TxId, namespace: Bytes, query: string, value: Value, size: Option<nat>,
        envelopeEncodes: bool)
      returns (ok: bool, ghost answer: Answer)
      requires Valid() && (policy.transactionMode.Defer? <==> cfg.deferred)
      modifies this, backend, txBuffers.Values
      ensures Valid() && txBuffers == old(txBuffers)
      ensures Model() == if Hooks.Keeps(policy, Some(value))
                         then Step(cfg, old(Model()), Query(tx, task, namespace, query, value, 0, answer))
                         else old(Model())
      ensures !Hooks.Storable(policy, size, envelopeEncodes) ==> answer.Lost?
      ensures var direct := Hooks.Keeps(policy, Some(value)) && !(cfg.deferred && task in txBuffers);
              && (!ok <==> direct && Hooks.StoreFails(policy, size, envelopeEncodes, !answer.Done?))
              && |backend.attempts| == |old(backend.attempts)| +
                   if direct && Hooks.Storable(policy, size, envelopeEncodes) then 1 else 0
    {
      ok, answer := true, Lost;
      if !policy.cacheNull && Hooks.IsEmpty(value) {
        return;
      }
      var generation := backend.Read(namespace);
      var d, entry := cfg.digest(namespace, query, generation), Entry(namespace, generation, value);
      if cfg.deferred && task in txBuffers {
        txBuffers[task].Put(d, entry);
        assert forall x | x in txBuffers && x != task :: txBuffers[x] != txBuffers[task];
        assert Buffers() == old(Buffers())[task := txBuffers[task].Model()];
        return;
      }
      ok, answer := StoreDirectly(policy, d, entry, size, envelopeEncodes);
      assert Buffers() == old(Buffers());
    }

    /** `store_value` */
    method StoreDirectly(policy: Hooks.Policy, d: string, entry: Entry, size: Option<nat>, envelopeEncodes: bool)
      returns (ok: bool, ghost answer: Answer)
      modifies backend
      ensures backend.Model() == Attempted(old(backend.Model()), PutOf(d, entry), answer)
      ensures !Hooks.Storable(policy, size, envelopeEncodes) ==> answer.Lost?
      ensures !ok <==> Hooks.StoreFails(policy, size, envelopeEncodes, !answer.Done?)
      ensures |backend.attempts| == |old(backend.attempts)| +
                if Hooks.Storable(policy, size, envelopeEncodes) then 1 else 0
    {
      answer := Lost;
      if size.None? {
        return false, Lost;
      }
      if size.value > policy.maxValueSize {
        return true, Lost;
      }
      if !envelopeEncodes {
        return false, Lost;
      }
      var put := backend.Put(d, entry);
      ok, answer := put.Done? || policy.failureMode.FailOpen?, put;
    }

    /** The end of a statement that changed rows, inside a transaction. */
    method AfterDml(tx: TxId, task: TxId, namespace: Bytes)
      requires Valid()
      modifies txBuffers.Values
      ensures Valid() && txBuffers == old(txBuffers)
      ensures Model() == Step(cfg, old(Model()), Dml(tx, task, namespace))
    {
      if cfg.deferred && task in txBuffers {
        txBuffers[task].ClearNamespace(namespace);
        assert forall x | x in txBuffers && x != task :: txBuffers[x] != txBuffers[task];
        assert Buffers() == old(Buffers())[task := txBuffers[task].Model()];
      }
    }
  }
}
