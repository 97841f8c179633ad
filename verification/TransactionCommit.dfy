/** What a commit makes of a Defer transaction: its changes raise generations, its reads are put. */
module TransactionCommit {
  import opened CacheKeys
  import opened Transactions
  import TransactionFlush

  /** The event opens the buffer of `task` anew, or takes it away. */
  predicate Touches(e: Event, task: TxId) {
    match e
    case Begin(tx) => tx == task
    case CommitSuccess(tx) => tx == task
    case CommitFailed(tx) => tx == task
    case Rollback(tx) => tx == task
    case RollbackFailed(tx) => tx == task
    case _ => false
  }

  /** Nothing touches the buffer of `task` after event `i`, until its commit is event `c`. */
  ghost predicate CommitsAt(events: seq<Event>, task: TxId, i: nat, c: nat) {
    && i < c < |events| && events[c].CommitSuccess? && events[c].tx == task
    && forall m | i < m < c :: !Touches(events[m], task)
  }

  /** The key and the entry that a query makes in state `s`. */
  function DigestOf(cfg: Config, s: State, e: Event): string
    requires e.Query?
  {
    cfg.digest(e.namespace, e.query, GenerationSeen(s.backend, e.namespace, e.lag))
  }

  function EntryOf(s: State, e: Event): Entry
    requires e.Query?
  {
    Entry(e.namespace, GenerationSeen(s.backend, e.namespace, e.lag), e.value)
  }

  /** The event buffers something else under digest `d` for `task`. */
  predicate Overwrites(cfg: Config, s: State, e: Event, task: TxId, d: string) {
    e.Query? && e.task == task && DigestOf(cfg, s, e) == d
  }

  // ------------------------------------------------------------------ the buffer

  ghost function At(cfg: Config, events: seq<Event>, m: nat): State
    requires m <= |events|
  {
    Run(cfg, events[..m])
  }

  lemma OneMore(cfg: Config, events: seq<Event>, m: nat)
    requires m < |events|
    ensures At(cfg, events, m + 1) == Step(cfg, At(cfg, events, m), events[m])
  {
    assert events[..m + 1][..m] == events[..m];
  }

  ghost predicate Marks(s: State, task: TxId, ns: Bytes) {
    task in s.buffers && ns in s.buffers[task].cleared
  }

  ghost predicate Holds(s: State, task: TxId, d: string, entry: Entry) {
    task in s.buffers && d in s.buffers[task].pending && s.buffers[task].pending[d] == entry
  }

  lemma StepKeepsMark(cfg: Config, s: State, e: Event, task: TxId, ns: Bytes)
    requires Marks(s, task, ns) && !Touches(e, task)
    ensures Marks(Step(cfg, s, e), task, ns)
  {
  }

  lemma StepKeepsEntry(cfg: Config, s: State, e: Event, task: TxId, d: string, entry: Entry)
    requires Holds(s, task, d, entry) && !Touches(e, task) && !Overwrites(cfg, s, e, task, d)
    ensures Holds(Step(cfg, s, e), task, d, entry)
  {
  }

  lemma {:induction false} MarkLasts(cfg: Config, events: seq<Event>, task: TxId, ns: Bytes, i: nat, m: nat)
    requires i < m <= |events| && Marks(At(cfg, events, i + 1), task, ns)
    requires forall x | i < x < m :: !Touches(events[x], task)
    ensures Marks(At(cfg, events, m), task, ns)
    decreases m
  {
    if i + 1 < m {
      MarkLasts(cfg, events, task, ns, i, m - 1);
      OneMore(cfg, events, m - 1);
      StepKeepsMark(cfg, At(cfg, events, m - 1), events[m - 1], task, ns);
    }
  }

  lemma {:induction false} EntryLasts(
      cfg: Config, events: seq<Event>, task: TxId, d: string, entry: Entry, i: nat, m: nat)
    requires i < m <= |events| && Holds(At(cfg, events, i + 1), task, d, entry)
    requires forall x | i < x < m ::
               !Touches(events[x], task) && !Overwrites(cfg, At(cfg, events, x), events[x], task, d)
    ensures Holds(At(cfg, events, m), task, d, entry)
    decreases m
  {
    if i + 1 < m {
      EntryLasts(cfg, events, task, d, entry, i, m - 1);
      OneMore(cfg, events, m - 1);
      StepKeepsEntry(cfg, At(cfg, events, m - 1), events[m - 1], task, d, entry);
    }
  }

  // ------------------------------------------------------------------- the flush

  /** Flush `k` still has to bump the namespace, was aborted, or has raised its generation above `g`. */
  ghost predicate BumpsAbove(s: State, k: nat, ns: Bytes, g: nat) {
    && k < |s.flushes| && g <= Generation(s.backend, ns)
    && (ns in s.flushes[k].unbumped || s.flushes[k].aborted || g < Generation(s.backend, ns))
  }

  lemma StepBumpsAbove(cfg: Config, s: State, e: Event, k: nat, ns: Bytes, g: nat)
    requires BumpsAbove(s, k, ns, g)
    ensures BumpsAbove(Step(cfg, s, e), k, ns, g)
  {
    TransactionFlush.StepIsLater(cfg, s, e);
    assert Generation(s.backend, ns) <= Generation(Step(cfg, s, e).backend, ns);
  }

  /** Flush `k` still has to put the entry, was aborted, or has put it since the log had `from` writes. */
  ghost predicate PutsIt(s: State, k: nat, d: string, entry: Entry, from: nat) {
    && k < |s.flushes| && from <= |s.backend.log|
    && (|| (d in s.flushes[k].unput && s.flushes[k].unput[d] == entry)
        || s.flushes[k].aborted
        || exists x | from <= x < |s.backend.log| :: s.backend.log[x] == PutOf(d, entry))
  }

  lemma LogGrows(cfg: Config, s: State, e: Event)
    ensures s.backend.log <= Step(cfg, s, e).backend.log
  {
    StepWrites(cfg, s, e);
  }

  lemma StepPutsIt(cfg: Config, s: State, e: Event, k: nat, d: string, entry: Entry, from: nat)
    requires PutsIt(s, k, d, entry, from)
    ensures PutsIt(Step(cfg, s, e), k, d, entry, from)
  {
    var s' := Step(cfg, s, e);
    LogGrows(cfg, s, e);
    if e.FlushPut? && e.flush == k && e.digest == d && CanPut(s, k, d) {
      if e.answer.Done? && s.flushes[k].unput[d] == entry {
        assert s'.backend.log[|s.backend.log|] == PutOf(d, entry);
      }
    }
  }

  lemma {:induction false} RunBumpsAbove(
      cfg: Config, events: seq<Event>, k: nat, ns: Bytes, g: nat, a: nat, n: nat)
    requires a <= n <= |events| && BumpsAbove(At(cfg, events, a), k, ns, g)
    ensures BumpsAbove(At(cfg, events, n), k, ns, g)
    decreases n
  {
    if a < n {
      RunBumpsAbove(cfg, events, k, ns, g, a, n - 1);
      OneMore(cfg, events, n - 1);
      StepBumpsAbove(cfg, At(cfg, events, n - 1), events[n - 1], k, ns, g);
    }
  }

  lemma {:induction false} RunPutsIt(
      cfg: Config, events: seq<Event>, k: nat, d: string, entry: Entry, from: nat, a: nat, n: nat)
    requires a <= n <= |events| && PutsIt(At(cfg, events, a), k, d, entry, from)
    ensures PutsIt(At(cfg, events, n), k, d, entry, from)
    decreases n
  {
    if a < n {
      RunPutsIt(cfg, events, k, d, entry, from, a, n - 1);
      OneMore(cfg, events, n - 1);
      StepPutsIt(cfg, At(cfg, events, n - 1), events[n - 1], k, d, entry, from);
    }
  }

  // ------------------------------------------------------------------ the theorems

  /**
   * A change reaches its readers: if a statement changes rows in a transaction whose buffer is open, and the
   * transaction commits, then once its flush has got through, whatever else runs beside it, the generation of
   * the namespace is above what it was at the commit.
   */
  lemma CommittedChangeRaisesGeneration(cfg: Config, events: seq<Event>, i: nat, c: nat, n: nat)
    requires cfg.deferred && i < |events| && events[i].Dml? && events[i].task in At(cfg, events, i).buffers
    requires CommitsAt(events, events[i].task, i, c) && c < n <= |events|
    ensures var k := |At(cfg, events, c).flushes|;
            && k < |At(cfg, events, n).flushes|
            && var f := At(cfg, events, n).flushes[k];
               !f.aborted && f.unbumped == {} ==>
                 Generation(At(cfg, events, c).backend, events[i].namespace)
                 < Generation(At(cfg, events, n).backend, events[i].namespace)
  {
    var task, ns := events[i].task, events[i].namespace;
    OneMore(cfg, events, i);
    MarkLasts(cfg, events, task, ns, i, c);
    OneMore(cfg, events, c);
    var s := At(cfg, events, c);
    assert BumpsAbove(At(cfg, events, c + 1), |s.flushes|, ns, Generation(s.backend, ns));
    RunBumpsAbove(cfg, events, |s.flushes|, ns, Generation(s.backend, ns), c + 1, n);
  }

  lemma QueryIsHeld(cfg: Config, events: seq<Event>, i: nat)
    requires cfg.deferred && i < |events| && events[i].Query? && events[i].task in At(cfg, events, i).buffers
    ensures var s, e := At(cfg, events, i), events[i];
            Holds(At(cfg, events, i + 1), e.task, DigestOf(cfg, s, e), EntryOf(s, e))
  {
    OneMore(cfg, events, i);
  }

  /** At the commit, what the buffer holds becomes something to put. */
  lemma HeldIsToBePut(cfg: Config, events: seq<Event>, c: nat, d: string, entry: Entry)
    requires cfg.deferred && c < |events| && events[c].CommitSuccess?
    requires Holds(At(cfg, events, c), events[c].tx, d, entry)
    ensures var s := At(cfg, events, c);
            PutsIt(At(cfg, events, c + 1), |s.flushes|, d, entry, |s.backend.log|)
  {
    OneMore(cfg, events, c);
  }

  /**
   * A read is published: if a query ends in a transaction whose buffer is open, no later query of it overwrites
   * the entry, and the transaction commits, then once its flush has got through, the entry has been put, with
   * the query's value under the key that the query had when it ended.
   */
  lemma CommittedReadIsPut(cfg: Config, events: seq<Event>, i: nat, c: nat, n: nat)
    requires cfg.deferred && i < |events| && events[i].Query? && events[i].task in At(cfg, events, i).buffers
    requires CommitsAt(events, events[i].task, i, c) && c < n <= |events|
    requires var d := DigestOf(cfg, At(cfg, events, i), events[i]);
             forall x | i < x < c :: !Overwrites(cfg, At(cfg, events, x), events[x], events[i].task, d)
    ensures var k := |At(cfg, events, c).flushes|;
            && k < |At(cfg, events, n).flushes|
            && var f := At(cfg, events, n).flushes[k];
               !f.aborted && f.unput == map[] ==>
                 exists x | |At(cfg, events, c).backend.log| <= x < |At(cfg, events, n).backend.log| ::
                   At(cfg, events, n).backend.log[x] ==
                   PutOf(DigestOf(cfg, At(cfg, events, i), events[i]), EntryOf(At(cfg, events, i), events[i]))
  {
    var s0, e := At(cfg, events, i), events[i];
    var d, entry := DigestOf(cfg, s0, e), EntryOf(s0, e);
    QueryIsHeld(cfg, events, i);
    EntryLasts(cfg, events, e.task, d, entry, i, c);
    HeldIsToBePut(cfg, events, c, d, entry);
    var s := At(cfg, events, c);
    RunPutsIt(cfg, events, |s.flushes|, d, entry, |s.backend.log|, c + 1, n);
  }

  /** In Bypass mode every commit bumps the listener's namespace. */
  lemma BypassCommitRaisesGeneration(cfg: Config, events: seq<Event>, c: nat, n: nat)
    requires !cfg.deferred && c < n <= |events| && events[c].CommitSuccess?
    ensures var k := |At(cfg, events, c).flushes|;
            && k < |At(cfg, events, n).flushes|
            && var f := At(cfg, events, n).flushes[k];
               !f.aborted && f.unbumped == {} ==>
                 Generation(At(cfg, events, c).backend, cfg.namespace)
                 < Generation(At(cfg, events, n).backend, cfg.namespace)
  {
    OneMore(cfg, events, c);
    var s := At(cfg, events, c);
    assert BumpsAbove(At(cfg, events, c + 1), |s.flushes|, cfg.namespace, Generation(s.backend, cfg.namespace));
    RunBumpsAbove(cfg, events, |s.flushes|, cfg.namespace, Generation(s.backend, cfg.namespace), c + 1, n);
  }
}
