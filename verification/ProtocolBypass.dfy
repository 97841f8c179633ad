/** Who goes past the cache: calls in a transaction, and SQL that does not parse or is no SELECT; nobody else. */
module ProtocolBypass {
  import opened Common
  import opened CacheKeys
  import opened Protocol

  /** The call may not use the cache: it is in a transaction, or its SQL does not parse or is no SELECT. */
  predicate GoesPast(cfg: Config, request: CacheKeyInput, inTransaction: bool) {
    inTransaction || cfg.parse(request.sql).None? || !cfg.parse(request.sql).value.isSelect
  }

  /** One bypass and one load, and nothing else. */
  ghost predicate BypassTally(m: Metrics) {
    && m.bypasses == 1 && m.loads == 1 && m.hits == 0 && m.misses == 0 && m.backendErrors == 0
    && m.recheckHits == 0 && m.generationFailures == 0
  }

  /** The call waits for its loader, or is over with what its loader said. */
  ghost predicate Bypasses(task: Task) {
    && BypassTally(task.tally)
    && (task.phase.LoadAlone? || (task.phase.Finished? && !task.outcome.EncodingFailed? && !task.outcome.Pending?))
  }

  lemma MoveBypasses(cfg: Config, s: State, task: Task, a: Action)
    requires Bypasses(task) && Fits(cfg, s, task, a)
    ensures Bypasses(Moved(cfg, s, task, a)) && Moved(cfg, s, task, a).request == task.request
    ensures a.LoaderReturns? || a.LoaderFails? || a.Cancel?
  {
  }

  /** From its first event on, such a call only ever waits for its loader. */
  lemma {:induction false} BypassOnlyLoads(cfg: Config, run: seq<State>, events: seq<Event>, b: nat, i: nat)
    requires IsRun(cfg, run, events) && b < i < |run| && events[b].Begin?
    requires GoesPast(cfg, events[b].request, events[b].inTransaction)
    ensures |run[b].tasks| < |run[i].tasks| && Bypasses(run[i].tasks[|run[b].tasks|])
    ensures run[i].tasks[|run[b].tasks|].request == events[b].request
    decreases i
  {
    assert StepsAt(cfg, run, events, i - 1);
    if b + 1 < i {
      BypassOnlyLoads(cfg, run, events, b, i - 1);
      var t, e := |run[b].tasks|, events[i - 1];
      if e.Call? && e.t == t {
        MoveBypasses(cfg, run[i - 1], run[i - 1].tasks[t], e.action);
      }
    }
  }

  /**
   * A call in a transaction, or on SQL that does not parse or is no SELECT, goes past the cache: it counts one
   * bypass and one load when it begins, and leaves the entries and the flight table alone.
   */
  lemma BypassBegins(cfg: Config, run: seq<State>, events: seq<Event>, b: nat)
    requires IsRun(cfg, run, events) && b < |events| && events[b].Begin?
    requires GoesPast(cfg, events[b].request, events[b].inTransaction)
    ensures run[b + 1].backend == run[b].backend && run[b + 1].table == run[b].table
    ensures var m := run[b].metrics;
            run[b + 1].metrics == m.(bypasses := m.bypasses + 1, loads := m.loads + 1)
  {
    assert StepsAt(cfg, run, events, b);
  }

  /**
   * ... and whatever it does later is to be cancelled, or to hand on exactly what its loader says: it asks for
   * no generation, looks nothing up, joins no flight, puts nothing, counts nothing more, and leaves entries and
   * flights as they were.
   */
  lemma BypassHandsOnItsLoader(
      cfg: Config, run: seq<State>, events: seq<Event>, b: nat, j: nat, a: Action)
    requires IsRun(cfg, run, events) && b < j < |events| && events[b].Begin?
    requires GoesPast(cfg, events[b].request, events[b].inTransaction)
    requires events[j] == Call(|run[b].tasks|, a)
    ensures run[j + 1].backend == run[j].backend && run[j + 1].table == run[j].table
    ensures run[j + 1].metrics == run[j].metrics && |run[b].tasks| < |run[j + 1].tasks|
    ensures var task := run[j + 1].tasks[|run[b].tasks|];
            && task.phase.Finished?
            && match a
               case LoaderReturns(size) =>
                 task.outcome == Answered(Payload(events[b].request, run[j].world.database, size))
               case LoaderFails => task.outcome.LoaderFailed?
               case Cancel => task.outcome.Cancelled?
               case _ => false
  {
    BypassOnlyLoads(cfg, run, events, b, j);
    assert StepsAt(cfg, run, events, j);
    MoveBypasses(cfg, run[j], run[j].tasks[|run[b].tasks|], a);
  }

  // --------------------------------------------------------------------- everybody else

  /** The call has asked the backend for its entry. */
  ghost predicate LooksUp(events: seq<Event>, t: TaskId, i: nat)
    requires i <= |events|
  {
    exists j | 0 <= j < i :: events[j] == Call(t, LookedUp) || events[j] == Call(t, LookupFails)
  }

  ghost predicate GenerationFailed(events: seq<Event>, t: TaskId, i: nat)
    requires i <= |events|
  {
    exists j | 0 <= j < i :: events[j] == Call(t, GenerationFails)
  }

  /** A call that has not looked up yet is on its way to do so, had no generation, or was cancelled. */
  ghost predicate OnItsWay(task: Task) {
    task.phase.ReadGeneration? || task.phase.Lookup? || (task.phase.Finished? && task.outcome.Cancelled?)
  }

  lemma MoveTowardsLookup(cfg: Config, s: State, task: Task, a: Action)
    requires OnItsWay(task) && Fits(cfg, s, task, a)
    ensures OnItsWay(Moved(cfg, s, task, a)) || a.LookedUp? || a.LookupFails? || a.GenerationFails?
  {
  }

  /** What the events so far and the call itself say of its lookup. */
  ghost predicate Accounted(events: seq<Event>, t: TaskId, i: nat, task: Task)
    requires i <= |events|
  {
    LooksUp(events, t, i) || GenerationFailed(events, t, i) || OnItsWay(task)
  }

  lemma EventsStay(events: seq<Event>, t: TaskId, i: nat)
    requires i < |events|
    ensures LooksUp(events, t, i) ==> LooksUp(events, t, i + 1)
    ensures GenerationFailed(events, t, i) ==> GenerationFailed(events, t, i + 1)
  {
  }

  lemma StepAccounts(cfg: Config, s: State, events: seq<Event>, t: TaskId, i: nat)
    requires i < |events| && Enabled(cfg, s, events[i]) && t < |s.tasks| && Accounted(events, t, i, s.tasks[t])
    ensures t < |Apply(cfg, s, events[i]).tasks|
    ensures Accounted(events, t, i + 1, Apply(cfg, s, events[i]).tasks[t])
  {
    EventsStay(events, t, i);
    var e := events[i];
    if e.Call? && e.t == t {
      if OnItsWay(s.tasks[t]) {
        MoveTowardsLookup(cfg, s, s.tasks[t], e.action);
      }
    }
  }

  /**
   * A SELECT that parses, outside a transaction, is looked up: at any time later it is on its way to its
   * lookup, or has asked the backend for its entry, or could not read a generation, or was cancelled.
   */
  lemma {:induction false} SelectIsLookedUp(cfg: Config, run: seq<State>, events: seq<Event>, b: nat, i: nat)
    requires IsRun(cfg, run, events) && b < i < |run| && events[b].Begin?
    requires !GoesPast(cfg, events[b].request, events[b].inTransaction)
    ensures |run[b].tasks| < |run[i].tasks|
    ensures Accounted(events, |run[b].tasks|, i, run[i].tasks[|run[b].tasks|])
    decreases i
  {
    assert StepsAt(cfg, run, events, i - 1);
    if b + 1 < i {
      SelectIsLookedUp(cfg, run, events, b, i - 1);
      StepAccounts(cfg, run[i - 1], events, |run[b].tasks|, i - 1);
    }
  }
}
