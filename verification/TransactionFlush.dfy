/** What a flush may publish: bumps come first, so what a writer read before its own commit is never served. */
module TransactionFlush {
  import opened CacheKeys
  import opened Transactions

  /** No entry is keyed with a generation that has not begun. */
  ghost predicate InPast(backend: Backend, pending: map<string, Entry>) {
    forall d | d in pending :: pending[d].generation <= Generation(backend, pending[d].namespace)
  }

  /** Entries of a namespace that the flush has bumped are out of date. */
  ghost predicate Outdated(backend: Backend, f: Flush) {
    forall d | d in f.unput && f.unput[d].namespace in f.marked - f.unbumped ::
      f.unput[d].generation < Generation(backend, f.unput[d].namespace)
  }

  ghost predicate FlushOk(backend: Backend, f: Flush) {
    InPast(backend, f.unput) && Outdated(backend, f)
  }

  ghost predicate Inv(s: State) {
    && (forall tx | tx in s.buffers :: InPast(s.backend, s.buffers[tx].pending))
    && (forall k | 0 <= k < |s.flushes| :: FlushOk(s.backend, s.flushes[k]))
  }

  ghost predicate Later(a: Backend, b: Backend) {
    forall ns :: Generation(a, ns) <= Generation(b, ns)
  }

  lemma StepIsLater(cfg: Config, s: State, e: Event)
    ensures Later(s.backend, Step(cfg, s, e).backend)
  {
  }

  /** Time alone keeps the invariant. */
  lemma LaterKeeps(s: State, backend: Backend)
    requires Inv(s) && Later(s.backend, backend)
    ensures Inv(s.(backend := backend))
  {
  }

  /** A bump that returns has outdated everything the flush holds of that namespace. */
  lemma BumpOutdates(s: State, k: nat, ns: Bytes, answer: Answer)
    requires Inv(s) && CanBump(s, k, ns)
    ensures Inv(FlushBumpStep(s, k, ns, answer))
  {
  }

  lemma PutKeeps(s: State, k: nat, d: string, answer: Answer)
    requires Inv(s) && CanPut(s, k, d)
    ensures Inv(FlushPutStep(s, k, d, answer))
  {
  }

  lemma CommitKeeps(cfg: Config, s: State, tx: TxId)
    requires Inv(s)
    ensures Inv(CommitStep(cfg, s, tx))
  {
  }

  /** A query that is buffered is keyed with a generation that has begun. */
  lemma QueryKeeps(cfg: Config, s: State, e: Event)
    requires Inv(s) && e.Query?
    ensures Inv(QueryStep(cfg, s, e))
  {
    if !(cfg.deferred && e.task in s.buffers) {
      LaterKeeps(s, QueryStep(cfg, s, e).backend);
    }
  }

  lemma StepKeeps(cfg: Config, s: State, e: Event)
    requires Inv(s)
    ensures Inv(Step(cfg, s, e))
  {
    match e
    case Query(_, _, _, _, _, _, _) => QueryKeeps(cfg, s, e);
    case FlushBump(k, ns, answer) => if CanBump(s, k, ns) { BumpOutdates(s, k, ns, answer); }
    case FlushPut(k, d, answer) => if CanPut(s, k, d) { PutKeeps(s, k, d, answer); }
    case Others(write) => LaterKeeps(s, Written(s.backend, write));
    case CommitSuccess(tx) => CommitKeeps(cfg, s, tx);
    case _ =>
  }

  lemma {:induction false} RunKeeps(cfg: Config, events: seq<Event>)
    ensures Inv(Run(cfg, events))
  {
    if events != [] {
      RunKeeps(cfg, events[..|events| - 1]);
      StepKeeps(cfg, Run(cfg, events[..|events| - 1]), events[|events| - 1]);
    }
  }

  lemma {:induction false} RunIsLater(cfg: Config, events: seq<Event>, i: nat)
    requires i <= |events|
    ensures Later(Run(cfg, events[..i]).backend, Run(cfg, events).backend)
    decreases |events|
  {
    if i == |events| {
      assert events[..i] == events;
    } else {
      var before := events[..|events| - 1];
      assert before[..i] == events[..i];
      RunIsLater(cfg, before, i);
      StepIsLater(cfg, Run(cfg, before), events[|events| - 1]);
    }
  }

  /**
   * Writers never publish what they read. If a flush puts an entry of a namespace that its transaction had
   * marked, the entry's generation is over by then and stays over: whatever happens later, a reader that
   * asks for the current generation cannot be answered by it.
   */
  lemma WritersNeverPublish(cfg: Config, events: seq<Event>, i: nat, k: nat, d: string)
    requires i <= |events| && CanPut(Run(cfg, events[..i]), k, d)
    requires Run(cfg, events[..i]).flushes[k].unput[d].namespace in Run(cfg, events[..i]).flushes[k].marked
    ensures var entry := Run(cfg, events[..i]).flushes[k].unput[d];
            entry.generation < Generation(Run(cfg, events).backend, entry.namespace)
  {
    RunKeeps(cfg, events[..i]);
    RunIsLater(cfg, events, i);
    var s := Run(cfg, events[..i]);
    assert FlushOk(s.backend, s.flushes[k]);
    assert Generation(s.backend, s.flushes[k].unput[d].namespace)
        <= Generation(Run(cfg, events).backend, s.flushes[k].unput[d].namespace);
  }

  // ----------------------------------------------------------------- failed bumps

  /** A flush only makes progress, and an aborted one is over. */
  ghost predicate Progress(a: Flush, b: Flush) {
    && b.marked == a.marked && b.unbumped <= a.unbumped && b.unput.Keys <= a.unput.Keys
    && (a.aborted ==> b == a)
  }

  lemma StepProgress(cfg: Config, s: State, e: Event)
    ensures |s.flushes| <= |Step(cfg, s, e).flushes|
    ensures forall k | 0 <= k < |s.flushes| :: Progress(s.flushes[k], Step(cfg, s, e).flushes[k])
  {
  }

  lemma {:induction false} RunProgress(cfg: Config, events: seq<Event>, i: nat, k: nat)
    requires i <= |events| && k < |Run(cfg, events[..i]).flushes|
    ensures k < |Run(cfg, events).flushes|
    ensures Progress(Run(cfg, events[..i]).flushes[k], Run(cfg, events).flushes[k])
    decreases |events|
  {
    if i == |events| {
      assert events[..i] == events;
    } else {
      var before := events[..|events| - 1];
      assert before[..i] == events[..i];
      RunProgress(cfg, before, i, k);
      StepProgress(cfg, Run(cfg, before), events[|events| - 1]);
    }
  }

  /** All or nothing on the bumps: a flush one of whose bumps fails never puts an entry, before or after. */
  lemma FailedBumpPutsNothing(
      cfg: Config, events: seq<Event>, i: nat, k: nat, ns: Bytes, answer: Answer, j: nat, d: string)
    requires i < |events| && events[i] == FlushBump(k, ns, answer) && !answer.Done?
    requires CanBump(Run(cfg, events[..i]), k, ns) && j <= |events|
    ensures !CanPut(Run(cfg, events[..j]), k, d)
  {
    if CanPut(Run(cfg, events[..j]), k, d) {
      if j <= i {
        assert events[..i][..j] == events[..j];
        RunProgress(cfg, events[..i], j, k);
        assert false;
      } else {
        assert events[..i + 1][..i] == events[..i];
        assert events[..j][..i + 1] == events[..i + 1];
        RunProgress(cfg, events[..j], i + 1, k);
        assert false;
      }
    }
  }

  // --------------------------------------------------------------------- the log

  function Replay(log: seq<Write>): Backend {
    if log == [] then INITIAL.backend else Written(Replay(log[..|log| - 1]), log[|log| - 1])
  }

  function Bumps(log: seq<Write>, ns: Bytes): nat {
    if log == [] then 0 else Bumps(log[..|log| - 1], ns) + if log[|log| - 1] == BumpOf(ns) then 1 else 0
  }

  lemma ReplayOn(log: seq<Write>, write: Write, ns: Bytes)
    ensures Replay(log + [write]) == Written(Replay(log), write)
    ensures Bumps(log + [write], ns) == Bumps(log, ns) + if write == BumpOf(ns) then 1 else 0
  {
    assert (log + [write])[..|log|] == log;
  }

  /** The log tells all: it determines the entries, and a generation is its number of bumps. */
  lemma {:induction false} LogTellsAll(cfg: Config, events: seq<Event>, ns: Bytes)
    ensures var backend := Run(cfg, events).backend;
            backend == Replay(backend.log) && Generation(backend, ns) == Bumps(backend.log, ns)
  {
    if events != [] {
      var before, e := Run(cfg, events[..|events| - 1]), events[|events| - 1];
      LogTellsAll(cfg, events[..|events| - 1], ns);
      StepWrites(cfg, before, e);
      match WriteOf(cfg, before, e)
      case Some(write) => ReplayOn(before.backend.log, write, ns);
      case None =>
    }
  }
}
