/** The counters balance, and the cache never turns a successful load into an error. */
module ProtocolMetrics {
  import opened Common
  import opened CacheKeys
  import opened Protocol

  /** Exactly one of hit and load, and every load has its one cause. */
  ghost predicate Balanced(m: Metrics) {
    m.hits + m.loads == 1 && m.loads + m.recheckHits == m.bypasses + m.generationFailures + m.misses
  }

  ghost predicate NothingYet(m: Metrics) {
    m.hits == 0 && m.misses == 0 && m.bypasses == 0 && m.loads == 0 && m.recheckHits == 0 && m.generationFailures == 0
  }

  /** A missed lookup, not yet followed by anything. */
  ghost predicate Missed(m: Metrics) {
    m.misses == 1 && m.hits == 0 && m.loads == 0 && m.bypasses == 0 && m.recheckHits == 0 && m.generationFailures == 0
  }

  /** A missed lookup followed by a load under the lock. */
  ghost predicate MissedAndLoaded(m: Metrics) {
    m.misses == 1 && m.hits == 0 && m.loads == 1 && m.bypasses == 0 && m.recheckHits == 0 && m.generationFailures == 0
  }

  ghost predicate HitOnRecheck(m: Metrics) {
    m.misses == 1 && m.hits == 1 && m.loads == 0 && m.bypasses == 0 && m.recheckHits == 1 && m.generationFailures == 0
  }

  /** What a call has counted by the time it is in its phase. */
  ghost predicate TallyOk(task: Task) {
    var m := task.tally;
    match task.phase
    case ReadGeneration => NothingYet(m) && task.outcome.Pending?
    case Lookup => NothingYet(m) && task.outcome.Pending?
    case Join => Missed(m) && task.outcome.Pending?
    case Waiting => Missed(m) && task.outcome.Pending?
    case Recheck => Missed(m) && task.outcome.Pending?
    case LoadAlone => Balanced(m) && m.loads == 1 && m.misses == 0 && task.outcome.Pending?
    case LoadLocked => MissedAndLoaded(m) && task.outcome.Pending?
    case Encoding => MissedAndLoaded(m) && task.outcome.Pending?
    case Putting => MissedAndLoaded(m) && task.outcome.Pending?
    case Unlocking => (MissedAndLoaded(m) || HitOnRecheck(m)) && task.outcome == Answered(task.value)
    case Releasing => (MissedAndLoaded(m) || HitOnRecheck(m)) && task.outcome == Answered(task.value)
    case Dropping => LeftOk(task)
    case Finished => LeftOk(task)
  }

  ghost predicate LeftOk(task: Task) {
    match task.outcome
    case Pending => false
    case Answered(p) => Balanced(task.tally) && p == task.value
    case LoaderFailed => Balanced(task.tally)
    case EncodingFailed => Balanced(task.tally)
    case Cancelled => task.tally.hits + task.tally.loads <= 1
  }

  lemma CallTallies(cfg: Config, s: State, task: Task, a: Action)
    requires TallyOk(task) && Fits(cfg, s, task, a)
    ensures TallyOk(Moved(cfg, s, task, a))
  {
  }

  // ------------------------------------------------------------------- totals

  function Plus(a: Metrics, b: Metrics): Metrics {
    Metrics(a.hits + b.hits, a.misses + b.misses, a.bypasses + b.bypasses, a.backendErrors + b.backendErrors,
            a.loads + b.loads, a.recheckHits + b.recheckHits, a.generationFailures + b.generationFailures)
  }

  function Total(tasks: seq<Task>): Metrics {
    if tasks == [] then ZERO else Plus(Total(tasks[..|tasks| - 1]), tasks[|tasks| - 1].tally)
  }

  lemma CountsAnywhere(a: Metrics, b: Metrics, mark: Mark)
    ensures Plus(Count(a, mark), b) == Count(Plus(a, b), mark) == Plus(a, Count(b, mark))
  {
  }

  lemma {:induction false} TotalAfterMove(tasks: seq<Task>, t: TaskId, task: Task, counted: Mark)
    requires t < |tasks| && task.tally == Count(tasks[t].tally, counted)
    ensures Total(tasks[t := task]) == Count(Total(tasks), counted)
  {
    var n, moved := |tasks| - 1, tasks[t := task];
    if t == n {
      assert moved[..n] == tasks[..n];
      CountsAnywhere(Total(tasks[..n]), tasks[n].tally, counted);
    } else {
      TotalAfterMove(tasks[..n], t, task, counted);
      assert moved[..n] == tasks[..n][t := task];
      CountsAnywhere(Total(tasks[..n]), tasks[n].tally, counted);
    }
  }

  /** The shared counters are the sum of what the calls counted. */
  ghost predicate MetricsInv(s: State) {
    s.metrics == Total(s.tasks) && forall t | 0 <= t < |s.tasks| :: TallyOk(s.tasks[t])
  }

  lemma TotalOfOneMore(tasks: seq<Task>, task: Task)
    ensures Total(tasks + [task]) == Plus(Total(tasks), task.tally)
  {
    assert (tasks + [task])[..|tasks|] == tasks;
  }

  /** A call that begins counts the same in its own tally and in the total. */
  lemma OpeningCounts(total: Metrics, tally: Metrics, cacheable: bool)
    requires tally == Count(ZERO, Opening(cacheable))
    ensures Plus(total, tally) == Count(total, Opening(cacheable))
  {
  }

  lemma NewTaskTallies(cfg: Config, s: State, request: CacheKeyInput, inTransaction: bool)
    ensures var task := NewTask(cfg, s, request, inTransaction);
            TallyOk(task) && task.tally == Count(ZERO, Opening(Cacheable(cfg, request, inTransaction)))
  {
  }

  lemma TotalAfterBegin(tasks: seq<Task>, task: Task, cacheable: bool)
    requires task.tally == Count(ZERO, Opening(cacheable))
    ensures Total(tasks + [task]) == Count(Total(tasks), Opening(cacheable))
  {
    TotalOfOneMore(tasks, task);
    OpeningCounts(Total(tasks), task.tally, cacheable);
  }

  lemma OneMoreTallied(tasks: seq<Task>, task: Task)
    requires TallyOk(task) && forall t | 0 <= t < |tasks| :: TallyOk(tasks[t])
    ensures forall t | 0 <= t < |tasks + [task]| :: TallyOk((tasks + [task])[t])
  {
  }

  lemma BeginKeepsMetrics(cfg: Config, s: State, request: CacheKeyInput, inTransaction: bool)
    requires MetricsInv(s)
    ensures MetricsInv(Apply(cfg, s, Begin(request, inTransaction)))
  {
    NewTaskTallies(cfg, s, request, inTransaction);
    TotalAfterBegin(s.tasks, NewTask(cfg, s, request, inTransaction), Cacheable(cfg, request, inTransaction));
    OneMoreTallied(s.tasks, NewTask(cfg, s, request, inTransaction));
  }

  lemma CallKeepsMetrics(cfg: Config, s: State, t: TaskId, a: Action)
    requires MetricsInv(s) && Enabled(cfg, s, Call(t, a))
    ensures MetricsInv(Apply(cfg, s, Call(t, a)))
  {
    CallTallies(cfg, s, s.tasks[t], a);
    TotalAfterMove(s.tasks, t, Moved(cfg, s, s.tasks[t], a), Counted(cfg, s, s.tasks[t], a));
  }

  lemma StepKeepsMetrics(cfg: Config, s: State, e: Event)
    requires MetricsInv(s) && Enabled(cfg, s, e)
    ensures MetricsInv(Apply(cfg, s, e))
  {
    match e
    case Begin(request, inTransaction) => BeginKeepsMetrics(cfg, s, request, inTransaction);
    case Call(t, a) => CallKeepsMetrics(cfg, s, t, a);
    case _ =>
  }

  lemma {:induction false} RunKeepsMetrics(cfg: Config, run: seq<State>, events: seq<Event>, i: nat)
    requires IsRun(cfg, run, events) && i < |run|
    ensures MetricsInv(run[i])
  {
    if i > 0 {
      RunKeepsMetrics(cfg, run, events, i - 1);
      assert StepsAt(cfg, run, events, i - 1);
      StepKeepsMetrics(cfg, run[i - 1], events[i - 1]);
    }
  }

  lemma {:induction false} BalancedTotal(tasks: seq<Task>)
    requires forall t | 0 <= t < |tasks| :: Balanced(tasks[t].tally)
    ensures var m := Total(tasks);
            m.hits + m.loads == |tasks| && m.loads + m.recheckHits == m.bypasses + m.generationFailures + m.misses
  {
    if tasks != [] {
      BalancedTotal(tasks[..|tasks| - 1]);
    }
  }

  /**
   * Conservation: once every call of a run has finished and none was cancelled, hits and loads add up to
   * the number of calls, and the loads are the bypasses, the generation failures, and the misses that the
   * second lookup did not turn into hits.
   */
  lemma CountersBalance(cfg: Config, run: seq<State>, events: seq<Event>, i: nat)
    requires IsRun(cfg, run, events) && i < |run|
    requires forall t | 0 <= t < |run[i].tasks| ::
               run[i].tasks[t].phase == Finished && run[i].tasks[t].outcome != Cancelled
    ensures var m := run[i].metrics;
            && m.hits + m.loads == |run[i].tasks|
            && m.loads == m.bypasses + m.generationFailures + (m.misses - m.recheckHits)
  {
    RunKeepsMetrics(cfg, run, events, i);
    forall t | 0 <= t < |run[i].tasks| ensures Balanced(run[i].tasks[t].tally) {
      assert TallyOk(run[i].tasks[t]);
    }
    BalancedTotal(run[i].tasks);
  }

  // ------------------------------------------------------------ failures, bumps

  /** A backend call of `get_or_load` that failed. */
  predicate FailsAtBackend(e: Event) {
    e.Call? && (e.action.GenerationFails? || e.action.LookupFails? || e.action.RecheckFails? || e.action.PutFails?)
  }

  function Failures(events: seq<Event>, i: nat): nat
    requires i <= |events|
  {
    if i == 0 then 0 else Failures(events, i - 1) + if FailsAtBackend(events[i - 1]) then 1 else 0
  }

  function ReturnedBumps(events: seq<Event>, i: nat): nat
    requires i <= |events|
  {
    if i == 0 then 0 else
      ReturnedBumps(events, i - 1) + if events[i - 1].Outside? && events[i - 1].change.BumpReturns? then 1 else 0
  }

  /** Every failed backend call is counted once, every bump that returns is counted once, and nothing else is. */
  lemma {:induction false} FailuresAreCounted(cfg: Config, run: seq<State>, events: seq<Event>, i: nat)
    requires IsRun(cfg, run, events) && i < |run|
    ensures run[i].metrics.backendErrors == Failures(events, i)
    ensures run[i].world.invalidations == ReturnedBumps(events, i)
  {
    if i > 0 {
      FailuresAreCounted(cfg, run, events, i - 1);
      assert StepsAt(cfg, run, events, i - 1);
    }
  }

  // ---------------------------------------------------------------- fail-open

  /** What became of the payload that the loader handed to a call. */
  ghost predicate Delivers(task: Task, p: Payload) {
    match task.phase
    case Encoding => task.value == p
    case Putting => task.value == p
    case Unlocking => task.outcome == Answered(p)
    case Releasing => task.outcome == Answered(p)
    case Dropping => task.outcome == Answered(p) || task.outcome.EncodingFailed? || task.outcome.Cancelled?
    case Finished => task.outcome == Answered(p) || task.outcome.EncodingFailed? || task.outcome.Cancelled?
    case _ => false
  }

  lemma StepDelivers(cfg: Config, s: State, task: Task, a: Action, p: Payload)
    requires Delivers(task, p) && Fits(cfg, s, task, a)
    ensures Delivers(Moved(cfg, s, task, a), p)
  {
  }

  /**
   * Fail-open: after a loader has returned, the call can only answer that payload, be cancelled, or fail to
   * encode it. No backend error, before or after, gets in the way.
   */
  lemma {:induction false} LoadedIsDelivered(
      cfg: Config, run: seq<State>, events: seq<Event>, j: nat, t: TaskId, size: nat, i: nat)
    requires IsRun(cfg, run, events) && j < i < |run| && events[j] == Call(t, LoaderReturns(size))
    ensures Enabled(cfg, run[j], events[j]) && t < |run[i].tasks|
    ensures Delivers(run[i].tasks[t], Payload(run[j].tasks[t].request, run[j].world.database, size))
  {
    assert StepsAt(cfg, run, events, j);
    assert StepsAt(cfg, run, events, i - 1);
    if j < i - 1 {
      LoadedIsDelivered(cfg, run, events, j, t, size, i - 1);
      match events[i - 1]
      case Call(u, a) =>
        if u == t {
          StepDelivers(cfg, run[i - 1], run[i - 1].tasks[t], a,
                       Payload(run[j].tasks[t].request, run[j].world.database, size));
        }
      case _ =>
    }
  }

  /** A call ends in an error only if its own loader failed or its own envelope could not be encoded. */
  lemma {:induction false} ErrorsAreTheLoaders(cfg: Config, run: seq<State>, events: seq<Event>, i: nat, t: TaskId)
    requires IsRun(cfg, run, events) && i < |run| && t < |run[i].tasks|
    ensures run[i].tasks[t].outcome.LoaderFailed? ==> exists j | 0 <= j < i :: events[j] == Call(t, LoaderFails)
    ensures run[i].tasks[t].outcome.EncodingFailed? ==> exists j | 0 <= j < i :: events[j] == Call(t, EncodeFails)
  {
    if i > 0 {
      assert StepsAt(cfg, run, events, i - 1);
      if t < |run[i - 1].tasks| {
        ErrorsAreTheLoaders(cfg, run, events, i - 1, t);
        if run[i].tasks[t].outcome != run[i - 1].tasks[t].outcome {
          assert events[i - 1].Call? && events[i - 1].t == t;
          OutcomeChange(cfg, run[i - 1], run[i - 1].tasks[t], events[i - 1].action);
        }
      }
    }
  }

  /** The call has failed in the way that the event says. */
  ghost predicate FailedBy(task: Task, a: Action) {
    && (task.phase.Dropping? || task.phase.Finished?)
    && if a.LoaderFails? then task.outcome.LoaderFailed? else task.outcome.EncodingFailed?
  }

  /** ... and if its loader or its encoding fails, it ends in that error, whatever comes after. */
  lemma {:induction false} FailuresAreReported(
      cfg: Config, run: seq<State>, events: seq<Event>, j: nat, t: TaskId, a: Action, i: nat)
    requires IsRun(cfg, run, events) && j < i < |run| && events[j] == Call(t, a) && (a.LoaderFails? || a.EncodeFails?)
    ensures t < |run[i].tasks| && FailedBy(run[i].tasks[t], a)
    decreases i
  {
    assert StepsAt(cfg, run, events, i - 1);
    if j < i - 1 {
      FailuresAreReported(cfg, run, events, j, t, a, i - 1);
    } else {
      RunKeepsMetrics(cfg, run, events, j);
      assert TallyOk(run[j].tasks[t]);
    }
  }

  lemma OutcomeChange(cfg: Config, s: State, task: Task, a: Action)
    requires Fits(cfg, s, task, a) && Moved(cfg, s, task, a).outcome != task.outcome
    ensures Moved(cfg, s, task, a).outcome.LoaderFailed? ==> a.LoaderFails?
    ensures Moved(cfg, s, task, a).outcome.EncodingFailed? ==> a.EncodeFails?
  {
  }
}
