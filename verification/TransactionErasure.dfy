/** A transaction that does not commit leaves no trace in the backend, exactly as long as it stays buffered. */
module TransactionErasure {
  import opened CacheKeys
  import opened Common
  import opened Transactions

  /** The event belongs to transaction `tx`. Flush steps belong to transactions that committed. */
  predicate Of(e: Event, tx: TxId) {
    match e
    case Begin(x) => x == tx
    case Query(x, _, _, _, _, _, _) => x == tx
    case Dml(x, _, _) => x == tx
    case CommitSuccess(x) => x == tx
    case CommitFailed(x) => x == tx
    case Rollback(x) => x == tx
    case RollbackFailed(x) => x == tx
    case _ => false
  }

  /** The events without those of `tx`. */
  function Erase(events: seq<Event>, tx: TxId): seq<Event> {
    if events == [] then []
    else
      var rest, e := Erase(events[..|events| - 1], tx), events[|events| - 1];
      if Of(e, tx) then rest else rest + [e]
  }

  predicate NeverCommits(events: seq<Event>, tx: TxId) {
    forall i | 0 <= i < |events| :: events[i] != CommitSuccess(tx)
  }

  /** The event opens or ends transaction `tx`. */
  predicate Bounds(e: Event, tx: TxId) {
    Of(e, tx) && !e.Query? && !e.Dml?
  }

  /** Read off the events: `tx` has begun, and not ended since. */
  predicate Open(cfg: Config, events: seq<Event>, tx: TxId) {
    cfg.deferred && events != [] &&
    var e := events[|events| - 1];
    if e == Begin(tx) then true
    else if Bounds(e, tx) then false
    else Open(cfg, events[..|events| - 1], tx)
  }

  /** The hook calls of `tx` whose results reached the backend although it had not committed. */
  function Escapes(cfg: Config, events: seq<Event>, tx: TxId): nat {
    if events == [] then 0
    else
      var before, e := events[..|events| - 1], events[|events| - 1];
      Escapes(cfg, before, tx) +
      if e.Query? && e.tx == tx && !e.direct.Lost? && !Open(cfg, before, e.task) then 1 else 0
  }

  /** Transactions do not get at each other's buffers: neither `tx` at another's, nor another at that of `tx`. */
  predicate Unmixed(cfg: Config, events: seq<Event>, tx: TxId) {
    forall i | 0 <= i < |events| && (events[i].Query? || events[i].Dml?) :: UnmixedAt(cfg, events, i, tx)
  }

  predicate UnmixedAt(cfg: Config, events: seq<Event>, i: nat, tx: TxId)
    requires i < |events| && (events[i].Query? || events[i].Dml?)
  {
    (events[i].tx == tx) != (events[i].task == tx) ==> !Open(cfg, events[..i], events[i].task)
  }

  /** Every query of `tx` whose direct store would land finds its buffer open. */
  predicate Buffered(cfg: Config, events: seq<Event>, tx: TxId) {
    forall i | 0 <= i < |events| && events[i].Query? && events[i].tx == tx && !events[i].direct.Lost? ::
      Open(cfg, events[..i], events[i].task)
  }

  /** One event more. */
  lemma RunOn(cfg: Config, events: seq<Event>, e: Event)
    ensures Run(cfg, events + [e]) == Step(cfg, Run(cfg, events), e)
  {
    assert (events + [e])[..|events|] == events;
  }

  /** Only its own events give `tx` a buffer. */
  lemma StaysWithout(cfg: Config, s: State, e: Event, tx: TxId)
    requires tx !in s.buffers && !Of(e, tx)
    ensures tx !in Step(cfg, s, e).buffers
  {
  }

  lemma {:induction false} OpenIsInTable(cfg: Config, events: seq<Event>, tx: TxId)
    ensures tx in Run(cfg, events).buffers <==> Open(cfg, events, tx)
    ensures !cfg.deferred ==> Run(cfg, events).buffers == map[]
  {
    if events != [] {
      OpenIsInTable(cfg, events[..|events| - 1], tx);
    }
  }

  lemma {:induction false} BufferedHasNoEscapes(cfg: Config, events: seq<Event>, tx: TxId)
    ensures Buffered(cfg, events, tx) <==> Escapes(cfg, events, tx) == 0
  {
    if events != [] {
      var n := |events| - 1;
      BufferedHasNoEscapes(cfg, events[..n], tx);
      assert forall i | 0 <= i < n :: events[..n][i] == events[i] && events[..n][..i] == events[..i];
    }
  }

  // --------------------------------------------------------------- simulation

  /** Two states that differ in the buffer of `tx` alone, and in what it put into the backend early. */
  predicate Alike(a: State, b: State, tx: TxId) {
    && a.buffers - {tx} == b.buffers - {tx}
    && a.flushes == b.flushes
    && a.backend.generations == b.backend.generations
  }

  lemma BuffersAway(a: map<TxId, Buffer>, b: map<TxId, Buffer>, tx: TxId, x: TxId)
    requires a - {tx} == b - {tx} && x != tx
    ensures x in a <==> x in b
    ensures x in a ==> a[x] == b[x]
    ensures (a - {x}) - {tx} == (b - {x}) - {tx}
    ensures forall v {:trigger a[x := v]} :: a[x := v] - {tx} == b[x := v] - {tx}
  {
    assert x in a <==> x in a - {tx};
    assert x in b <==> x in b - {tx};
    if x in a {
      assert (a - {tx})[x] == (b - {tx})[x];
    }
    assert forall y :: y in a - {tx} <==> y in b - {tx};
    assert forall y | y in a - {tx} :: a[y] == (a - {tx})[y] == (b - {tx})[y] == b[y];
  }

  /** An event of `tx` that is no commit touches its buffer, or the backend by a direct put. */
  lemma OwnEvent(cfg: Config, s: State, e: Event, tx: TxId)
    requires Of(e, tx) && e != CommitSuccess(tx)
    requires e.Query? || e.Dml? ==> e.task == tx || !(cfg.deferred && e.task in s.buffers)
    ensures var s' := Step(cfg, s, e);
            && s'.buffers - {tx} == s.buffers - {tx} && s'.flushes == s.flushes
            && s'.backend.generations == s.backend.generations
            && (if e.Query? && !e.direct.Lost? && !(cfg.deferred && e.task in s.buffers)
                then |s'.backend.log| == |s.backend.log| + 1
                else s'.backend == s.backend)
  {
  }

  /** What two states agree on after the same event. */
  predicate StayAlike(a: State, b: State, a': State, b': State, tx: TxId) {
    && Alike(a', b', tx)
    && |a'.backend.log| - |a.backend.log| == |b'.backend.log| - |b.backend.log|
    && (a.backend == b.backend ==> a'.backend == b'.backend)
  }

  /** A hook of another transaction, which does not find the buffer of `tx`. */
  lemma OtherHook(cfg: Config, a: State, b: State, e: Event, tx: TxId)
    requires Alike(a, b, tx) && tx !in b.buffers && (e.Query? || e.Dml?) && e.tx != tx
    requires e.task == tx ==> !(cfg.deferred && tx in a.buffers)
    ensures StayAlike(a, b, Step(cfg, a, e), Step(cfg, b, e), tx)
    ensures WriteOf(cfg, a, e) == WriteOf(cfg, b, e)
  {
    if e.task != tx {
      BuffersAway(a.buffers, b.buffers, tx, e.task);
    }
  }

  lemma OtherCommit(cfg: Config, a: State, b: State, x: TxId, tx: TxId)
    requires Alike(a, b, tx) && x != tx
    ensures StayAlike(a, b, CommitStep(cfg, a, x), CommitStep(cfg, b, x), tx)
  {
    BuffersAway(a.buffers, b.buffers, tx, x);
  }

  lemma OtherBound(cfg: Config, a: State, b: State, e: Event, x: TxId, tx: TxId)
    requires Alike(a, b, tx) && x != tx && Bounds(e, x) && !e.CommitSuccess?
    ensures StayAlike(a, b, Step(cfg, a, e), Step(cfg, b, e), tx)
  {
    BuffersAway(a.buffers, b.buffers, tx, x);
  }

  lemma WrittenAlike(a: State, b: State, a': State, b': State, write: Write, answer: Answer, tx: TxId)
    requires Alike(a, b, tx) && a'.buffers == a.buffers && b'.buffers == b.buffers && a'.flushes == b'.flushes
    requires a'.backend == Attempted(a.backend, write, answer) && b'.backend == Attempted(b.backend, write, answer)
    ensures StayAlike(a, b, a', b', tx)
  {
  }

  /** Flush steps and other traffic do not look at the buffers. */
  lemma OtherWrite(cfg: Config, a: State, b: State, e: Event, tx: TxId)
    requires Alike(a, b, tx) && (e.FlushBump? || e.FlushPut? || e.Others?)
    ensures StayAlike(a, b, Step(cfg, a, e), Step(cfg, b, e), tx)
  {
    var a', b' := Step(cfg, a, e), Step(cfg, b, e);
    match e
    case FlushBump(k, ns, answer) =>
      if CanBump(a, k, ns) { WrittenAlike(a, b, a', b', BumpOf(ns), answer, tx); }
    case FlushPut(k, d, answer) =>
      if CanPut(a, k, d) { WrittenAlike(a, b, a', b', PutOf(d, a.flushes[k].unput[d]), answer, tx); }
    case Others(write) => WrittenAlike(a, b, a', b', write, Done, tx);
  }

  /** Any other event does the same in alike states. */
  lemma OtherEvent(cfg: Config, a: State, b: State, e: Event, tx: TxId)
    requires Alike(a, b, tx) && tx !in b.buffers && !Of(e, tx)
    requires (e.Query? || e.Dml?) && e.task == tx ==> !(cfg.deferred && tx in a.buffers)
    ensures StayAlike(a, b, Step(cfg, a, e), Step(cfg, b, e), tx)
    ensures WriteOf(cfg, a, e) == WriteOf(cfg, b, e)
  {
    if e.Query? || e.Dml? {
      OtherHook(cfg, a, b, e, tx);
    } else if e.CommitSuccess? {
      OtherCommit(cfg, a, b, e.tx, tx);
    } else if e.FlushBump? || e.FlushPut? || e.Others? {
      OtherWrite(cfg, a, b, e, tx);
    } else {
      OtherBound(cfg, a, b, e, e.tx, tx);
    }
  }

  /** The erased transaction has no buffer. */
  lemma {:induction false} NeverOpenInErasure(cfg: Config, events: seq<Event>, tx: TxId)
    ensures tx !in Run(cfg, Erase(events, tx)).buffers
  {
    if events != [] {
      var before, e := events[..|events| - 1], events[|events| - 1];
      NeverOpenInErasure(cfg, before, tx);
      if !Of(e, tx) {
        RunOn(cfg, Erase(before, tx), e);
        StaysWithout(cfg, Run(cfg, Erase(before, tx)), e, tx);
      }
    }
  }

  /** The last event is no more mixed than the run. */
  lemma LastIsUnmixed(cfg: Config, events: seq<Event>, tx: TxId)
    requires events != [] && Unmixed(cfg, events, tx)
    ensures Unmixed(cfg, events[..|events| - 1], tx)
    ensures var e := events[|events| - 1];
            (e.Query? || e.Dml?) && (e.tx == tx) != (e.task == tx) ==>
              !(cfg.deferred && e.task in Run(cfg, events[..|events| - 1]).buffers)
  {
    var n, before, e := |events| - 1, events[..|events| - 1], events[|events| - 1];
    forall i | 0 <= i < n && (before[i].Query? || before[i].Dml?) ensures UnmixedAt(cfg, before, i, tx) {
      assert UnmixedAt(cfg, events, i, tx) && before[..i] == events[..i];
    }
    if e.Query? || e.Dml? {
      assert UnmixedAt(cfg, events, n, tx);
      OpenIsInTable(cfg, before, e.task);
    }
  }

  /** The run and its erasure stay alike; the backend of the run has seen the escapes in addition. */
  lemma {:induction false} ErasureSimulates(cfg: Config, events: seq<Event>, tx: TxId)
    requires NeverCommits(events, tx) && Unmixed(cfg, events, tx)
    ensures var a, b := Run(cfg, events), Run(cfg, Erase(events, tx));
            && Alike(a, b, tx)
            && |a.backend.log| == |b.backend.log| + Escapes(cfg, events, tx)
            && (Escapes(cfg, events, tx) == 0 ==> a.backend == b.backend)
  {
    if events != [] {
      var before, e := events[..|events| - 1], events[|events| - 1];
      assert forall i | 0 <= i < |before| :: before[i] == events[i];
      LastIsUnmixed(cfg, events, tx);
      ErasureSimulates(cfg, before, tx);
      if Of(e, tx) {
        if e.Query? {
          OpenIsInTable(cfg, before, e.task);
        }
        OwnEvent(cfg, Run(cfg, before), e, tx);
      } else {
        NeverOpenInErasure(cfg, before, tx);
        OtherEvent(cfg, Run(cfg, before), Run(cfg, Erase(before, tx)), e, tx);
        RunOn(cfg, Erase(before, tx), e);
      }
    }
  }

  /**
   * Rollback erasure. Take any interleaving of transactions, their flushes and other traffic, and a
   * transaction that never commits; hooks may look for its buffer under any id, as long as they do not find
   * another's. Deleting all its events leaves generations, everybody else's buffers and all flushes
   * unchanged. It leaves the entries and the very sequence of writes unchanged too if and only if each of
   * its queries finds its buffer open, or fails to store.
   */
  lemma RollbackErasure(cfg: Config, events: seq<Event>, tx: TxId)
    requires NeverCommits(events, tx) && Unmixed(cfg, events, tx)
    ensures var a, b := Run(cfg, events), Run(cfg, Erase(events, tx));
            && a.buffers - {tx} == b.buffers - {tx} && a.flushes == b.flushes
            && a.backend.generations == b.backend.generations
            && (a.backend == b.backend <==> Buffered(cfg, events, tx))
  {
    ErasureSimulates(cfg, events, tx);
    BufferedHasNoEscapes(cfg, events, tx);
  }

  // ----------------------------------------------------------------- the entries

  /** The last put of digest `d` that reached the backend was made by `tx`. */
  predicate LastPutIsOf(cfg: Config, events: seq<Event>, tx: TxId, d: string) {
    events != [] &&
    var before, e := events[..|events| - 1], events[|events| - 1];
    var write := WriteOf(cfg, Run(cfg, before), e);
    if write.Some? && write.value.PutOf? && write.value.digest == d then Of(e, tx)
    else LastPutIsOf(cfg, before, tx, d)
  }

  predicate SameAt(a: Backend, b: Backend, d: string) {
    (d in a.store <==> d in b.store) && (d in a.store && d in b.store ==> a.store[d] == b.store[d])
  }

  lemma SameEverywhere(a: Backend, b: Backend)
    requires forall d :: SameAt(a, b, d)
    ensures a.store == b.store
  {
    assert forall d :: d in a.store ==> SameAt(a, b, d);
    assert forall d :: d in b.store ==> SameAt(a, b, d);
  }

  /** Only what `tx` put last can differ. */
  lemma {:induction false} OthersPutTheSame(cfg: Config, events: seq<Event>, tx: TxId, d: string)
    requires NeverCommits(events, tx) && Unmixed(cfg, events, tx)
    ensures var a, b := Run(cfg, events).backend, Run(cfg, Erase(events, tx)).backend;
            if LastPutIsOf(cfg, events, tx, d) then d in a.store else SameAt(a, b, d)
  {
    if events != [] {
      var before, e := events[..|events| - 1], events[|events| - 1];
      assert forall i | 0 <= i < |before| :: before[i] == events[i];
      LastIsUnmixed(cfg, events, tx);
      OthersPutTheSame(cfg, before, tx, d);
      StepWrites(cfg, Run(cfg, before), e);
      if !Of(e, tx) {
        ErasureSimulates(cfg, before, tx);
        NeverOpenInErasure(cfg, before, tx);
        OtherEvent(cfg, Run(cfg, before), Run(cfg, Erase(before, tx)), e, tx);
        StepWrites(cfg, Run(cfg, Erase(before, tx)), e);
        RunOn(cfg, Erase(before, tx), e);
      }
    }
  }

  /**
   * The entries alone: they are unchanged if and only if, wherever the last put of a digest was made by the
   * transaction, the entry would have been there without it. In particular they are unchanged once all that
   * escaped has been overwritten by others.
   */
  lemma EntriesErased(cfg: Config, events: seq<Event>, tx: TxId)
    requires NeverCommits(events, tx) && Unmixed(cfg, events, tx)
    ensures var a, b := Run(cfg, events).backend, Run(cfg, Erase(events, tx)).backend;
            a.store == b.store <==> forall d | LastPutIsOf(cfg, events, tx, d) :: SameAt(a, b, d)
  {
    var a, b := Run(cfg, events).backend, Run(cfg, Erase(events, tx)).backend;
    if forall d | LastPutIsOf(cfg, events, tx, d) :: SameAt(a, b, d) {
      forall d ensures SameAt(a, b, d) {
        OthersPutTheSame(cfg, events, tx, d);
      }
      SameEverywhere(a, b);
    }
  }

  // -------------------------------------------------------------- the conditions

  /**
   * The condition is needed: a hook call under an id without a buffer, one whose transaction has ended or
   * was announced under another id, falls through to the backend, and rolling back does not undo it.
   */
  lemma UnbufferedReadIsPublished(cfg: Config, tx: TxId, ns: Bytes, query: string, value: Value)
    ensures var events := [Query(tx, tx, ns, query, value, 0, Done), Rollback(tx)];
            && NeverCommits(events, tx) && Unmixed(cfg, events, tx) && !Buffered(cfg, events, tx)
            && Run(cfg, events).backend.store == map[cfg.digest(ns, query, 0) := Entry(ns, 0, value)]
            && Run(cfg, Erase(events, tx)).backend.store == map[]
  {
    var events := [Query(tx, tx, ns, query, value, 0, Done), Rollback(tx)];
    var first := [events[0]];
    assert events[..1] == first && first[..0] == [] && events[..0] == [];
    assert events[0].Query? && !Open(cfg, events[..0], tx);
    assert RunFrom(cfg, INITIAL, first[..|first| - 1]) == INITIAL;
    assert Run(cfg, first) == Step(cfg, INITIAL, events[0]);
    assert events[..|events| - 1] == first && Run(cfg, events) == Step(cfg, Run(cfg, first), events[1]);
    assert Erase(first, tx) == [];
  }

  /** Transaction `x` reads into the buffer of `y`, and rolls back. */
  lemma ReadsElsewhere(cfg: Config, x: TxId, y: TxId, ns: Bytes, query: string, value: Value)
    returns (events: seq<Event>)
    requires cfg.deferred && x != y
    ensures events == [Begin(y), Query(x, y, ns, query, value, 0, Lost), Rollback(x)]
    ensures var buffer := Buffer(map[cfg.digest(ns, query, 0) := Entry(ns, 0, value)], {});
            Run(cfg, events) == State(map[y := buffer], [], INITIAL.backend)
  {
    events := [];
    RunOn(cfg, events, Begin(y));
    events := events + [Begin(y)];
    assert Run(cfg, events) == State(map[y := EMPTY], [], INITIAL.backend);
    RunOn(cfg, events, Query(x, y, ns, query, value, 0, Lost));
    events := events + [Query(x, y, ns, query, value, 0, Lost)];
    RunOn(cfg, events, Rollback(x));
    events := events + [Rollback(x)];
  }

  /**
   * So is that on ids: a read that lands in the buffer of another transaction is put when that one commits,
   * although its own transaction has rolled back.
   */
  lemma ForeignBufferIsPublished(cfg: Config, x: TxId, y: TxId, ns: Bytes, query: string, value: Value)
    returns (events: seq<Event>)
    requires cfg.deferred && x != y
    ensures NeverCommits(events, x)
    ensures Run(cfg, events).backend.store == map[cfg.digest(ns, query, 0) := Entry(ns, 0, value)]
  {
    var d, entry := cfg.digest(ns, query, 0), Entry(ns, 0, value);
    events := ReadsElsewhere(cfg, x, y, ns, query, value);
    RunOn(cfg, events, CommitSuccess(y));
    events := events + [CommitSuccess(y)];
    var s := Run(cfg, events);
    assert s.flushes == [FlushOf(Buffer(map[d := entry], {}))] && s.backend == INITIAL.backend;
    RunOn(cfg, events, FlushPut(0, d, Done));
    events := events + [FlushPut(0, d, Done)];
    assert CanPut(s, 0, d);
  }
}
