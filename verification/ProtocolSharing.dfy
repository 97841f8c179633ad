/** One successful load of a digest serves everybody, until something spoils the entry. */
module ProtocolSharing {
  import opened Common
  import opened CacheKeys
  import opened Protocol
  import opened ProtocolFlights
  import opened ProtocolKeys
  import opened ProtocolMetrics

  /** Before, while and after a call produces its payload under the lock. */
  predicate PastLoad(p: Phase) {
    p.Unlocking? || p.Releasing? || p.Dropping? || p.Finished?
  }

  /** The backend answers digest `d` with `p`, unexpired. */
  predicate Served(s: State, d: string, g: nat, p: Payload) {
    var store := s.backend.store;
    && d in store && store[d].Sealed? && store[d].envelope.payload == p
    && store[d].envelope.generation == g && store[d].envelope.expiresAt > s.world.now
  }

  /** Call `t` has loaded `p` for digest `d`: it is about to put it, or the backend has it. */
  ghost predicate Serves(cfg: Config, s: State, t: TaskId, d: string, p: Payload)
    requires t < |s.tasks|
  {
    var task := s.tasks[t];
    && HasLookedUp(task) && Digest(cfg, task) == d
    && if HasLoaded(task.phase) then task.value == p && (task.phase.Putting? ==> task.expiresAt > s.world.now)
       else PastLoad(task.phase) && Served(s, d, task.generation, p)
  }

  predicate Loads(p: Phase) {
    p.LoadLocked? || HasLoaded(p)
  }

  /** ... and nobody else loads for this digest. */
  ghost predicate Serving(cfg: Config, s: State, t: TaskId, d: string, p: Payload) {
    && t < |s.tasks| && Serves(cfg, s, t, d, p)
    && forall u | 0 <= u < |s.tasks| && u != t && Digest(cfg, s.tasks[u]) == d :: !Loads(s.tasks[u].phase)
  }

  // ------------------------------------------------------------- what can spoil

  /** The loader's own call does not get its entry into the backend, or only an expired one. */
  predicate FailsToPublish(cfg: Config, s: State, task: Task, a: Action) {
    || a.EncodeFails? || a.PutFails? || (a.Cancel? && task.phase.Putting?)
    || (a.Encoded? && (task.value.size > cfg.maxValueSize || SaturatingAdd(s.world.now, cfg.ttlMs) <= s.world.now))
  }

  /** At time `n` the entry, stored or on its way, has expired. */
  predicate ExpiredAt(s: State, t: TaskId, d: string, n: nat)
    requires t < |s.tasks|
  {
    if s.tasks[t].phase.Putting? then s.tasks[t].expiresAt <= n
    else d in s.backend.store && s.backend.store[d].Sealed? && s.backend.store[d].envelope.expiresAt <= n
  }

  /** The entry of digest `d` is lost, replaced or out of date, or a call cannot look at it under the lock. */
  predicate Spoils(cfg: Config, s: State, e: Event, t: TaskId, d: string)
    requires t < |s.tasks|
  {
    match e
    case Begin(_, _) => false
    case Call(u, a) =>
      u < |s.tasks| && Digest(cfg, s.tasks[u]) == d
      && (a.RecheckFails? || (u == t && FailsToPublish(cfg, s, s.tasks[t], a)))
    case Trouble(LateLanding(x, _)) => x == d
    case Trouble(Evict(x)) => x == d
    case Trouble(Corrupt(x)) => x == d
    case Outside(ClockMoves(n)) => ExpiredAt(s, t, d, n)
    case Outside(_) => false
  }

  // ------------------------------------------------------------------ one step

  /** The flight table is safe, tallies are kept, and the keys in use do not collide. */
  ghost predicate Sound(cfg: Config, s: State) {
    FlightInv(cfg, s) && MetricsInv(s) && NoCollision(cfg, s.tasks)
  }

  lemma RunIsSound(cfg: Config, run: seq<State>, events: seq<Event>, j: nat, i: nat)
    requires IsRun(cfg, run, events) && j <= i < |run| && NoCollision(cfg, run[i].tasks)
    ensures Sound(cfg, run[j])
  {
    RunKeepsFlights(cfg, run, events, j);
    RunKeepsMetrics(cfg, run, events, j);
    NoCollisionEarlier(cfg, run, events, j, i);
  }

  /** The loader's own next step. */
  lemma OwnStepServes(cfg: Config, s: State, t: TaskId, d: string, p: Payload, a: Action)
    requires t < |s.tasks| && Serves(cfg, s, t, d, p)
    requires Fits(cfg, s, s.tasks[t], a) && !Spoils(cfg, s, Call(t, a), t, d)
    ensures Serves(cfg, Apply(cfg, s, Call(t, a)), t, d, p)
  {
  }

  /** Another call's step leaves the loader's entry alone ... */
  lemma OtherStepServes(cfg: Config, s: State, t: TaskId, d: string, p: Payload, u: TaskId, a: Action)
    requires Serving(cfg, s, t, d, p) && u < |s.tasks| && u != t && Fits(cfg, s, s.tasks[u], a)
    ensures Serves(cfg, Apply(cfg, s, Call(u, a)), t, d, p)
  {
  }

  /** A load under the lock starts at a second lookup that found nothing. */
  lemma LoadsStartAtRecheck(cfg: Config, s: State, task: Task, a: Action)
    requires Fits(cfg, s, task, a) && !Loads(task.phase) && Loads(Moved(cfg, s, task, a).phase)
    ensures task.phase.Recheck? && Digest(cfg, Moved(cfg, s, task, a)) == Digest(cfg, task)
    ensures a.RecheckFails? || (a.Rechecked? && Fresh(cfg, s, task).None?)
  {
  }

  /** The lock of a digest has one holder. */
  lemma OneInside(cfg: Config, s: State, t: TaskId, u: TaskId)
    requires FlightInv(cfg, s) && t < |s.tasks| && u < |s.tasks|
    requires Critical(s.tasks[t].phase) && Critical(s.tasks[u].phase)
    requires Digest(cfg, s.tasks[t]) == Digest(cfg, s.tasks[u])
    ensures t == u
  {
  }

  /** A second lookup beside a served digest finds its entry. */
  lemma RecheckFindsIt(cfg: Config, s: State, t: TaskId, d: string, p: Payload, u: TaskId)
    requires Sound(cfg, s) && Serving(cfg, s, t, d, p) && u < |s.tasks| && u != t
    requires s.tasks[u].phase.Recheck? && Digest(cfg, s.tasks[u]) == d
    ensures Fresh(cfg, s, s.tasks[u]) == Some(p)
  {
    assert TallyOk(s.tasks[u]);
    if HasLoaded(s.tasks[t].phase) {
      OneInside(cfg, s, t, u);
      assert false;
    } else {
      assert ToldApart(cfg, s.tasks[t], s.tasks[u]);
    }
  }

  /** ... and does not start a load of its own. */
  lemma OtherStepLoadsNothing(cfg: Config, s: State, t: TaskId, d: string, p: Payload, u: TaskId, a: Action)
    requires Sound(cfg, s) && Serving(cfg, s, t, d, p) && u < |s.tasks| && u != t && Fits(cfg, s, s.tasks[u], a)
    requires !Spoils(cfg, s, Call(u, a), t, d)
    ensures var task := Moved(cfg, s, s.tasks[u], a); Digest(cfg, task) == d ==> !Loads(task.phase)
  {
    var before, after := s.tasks[u], Moved(cfg, s, s.tasks[u], a);
    if Digest(cfg, after) == d && Loads(after.phase) && !Loads(before.phase) {
      LoadsStartAtRecheck(cfg, s, before, a);
      RecheckFindsIt(cfg, s, t, d, p, u);
      assert false;
    }
    if Loads(before.phase) {
      assert !a.GenerationRead? && Digest(cfg, after) == Digest(cfg, before);
    }
  }

  lemma CallServes(cfg: Config, s: State, t: TaskId, d: string, p: Payload, u: TaskId, a: Action)
    requires Sound(cfg, s) && Serving(cfg, s, t, d, p) && u < |s.tasks| && Fits(cfg, s, s.tasks[u], a)
    requires !Spoils(cfg, s, Call(u, a), t, d)
    ensures Serving(cfg, Apply(cfg, s, Call(u, a)), t, d, p)
  {
    var s' := Apply(cfg, s, Call(u, a));
    if u == t {
      OwnStepServes(cfg, s, t, d, p, a);
    } else {
      OtherStepServes(cfg, s, t, d, p, u, a);
      OtherStepLoadsNothing(cfg, s, t, d, p, u, a);
    }
    forall v | 0 <= v < |s'.tasks| && v != t && Digest(cfg, s'.tasks[v]) == d ensures !Loads(s'.tasks[v].phase) {
      if v == u {
        assert s'.tasks[v] == Moved(cfg, s, s.tasks[u], a);
      } else {
        assert s'.tasks[v] == s.tasks[v];
      }
    }
  }

  /** Only the clock can hurt, and only past the expiry. */
  lemma OutsideServes(cfg: Config, s: State, t: TaskId, d: string, p: Payload, change: Change)
    requires Serving(cfg, s, t, d, p) && Possible(s.world, change) && !Spoils(cfg, s, Outside(change), t, d)
    ensures Serving(cfg, Apply(cfg, s, Outside(change)), t, d, p)
  {
  }

  lemma BeginServes(cfg: Config, s: State, t: TaskId, d: string, p: Payload, e: Event)
    requires Serving(cfg, s, t, d, p) && e.Begin?
    ensures Serving(cfg, Apply(cfg, s, e), t, d, p)
  {
  }

  /** Trouble with another digest is no trouble for this one. */
  lemma TroubleServes(cfg: Config, s: State, t: TaskId, d: string, p: Payload, e: Event)
    requires Serving(cfg, s, t, d, p) && e.Trouble? && Enabled(cfg, s, e) && !Spoils(cfg, s, e, t, d)
    ensures Serving(cfg, Apply(cfg, s, e), t, d, p)
  {
  }

  lemma StepServes(cfg: Config, s: State, e: Event, t: TaskId, d: string, p: Payload)
    requires Sound(cfg, s) && Serving(cfg, s, t, d, p) && Enabled(cfg, s, e) && !Spoils(cfg, s, e, t, d)
    ensures Serving(cfg, Apply(cfg, s, e), t, d, p)
  {
    match e
    case Begin(_, _) => BeginServes(cfg, s, t, d, p, e);
    case Call(u, a) => CallServes(cfg, s, t, d, p, u, a);
    case Trouble(_) => TroubleServes(cfg, s, t, d, p, e);
    case Outside(change) => OutsideServes(cfg, s, t, d, p, change);
  }

  // ---------------------------------------------------------------------- runs

  /** Nothing spoils digest `d` from event `j` on, before event `i`. */
  ghost predicate Unspoiled(cfg: Config, run: seq<State>, events: seq<Event>, j: nat, i: nat, t: TaskId, d: string)
    requires i <= |events| < |run|
  {
    forall k | j <= k < i :: t < |run[k].tasks| && !Spoils(cfg, run[k], events[k], t, d)
  }

  /** Beside a call under the lock nobody else loads for its digest. */
  lemma NobodyElseLoads(cfg: Config, s: State, t: TaskId)
    requires FlightInv(cfg, s) && t < |s.tasks| && Critical(s.tasks[t].phase)
    ensures forall u | 0 <= u < |s.tasks| && u != t && Digest(cfg, s.tasks[u]) == Digest(cfg, s.tasks[t]) ::
              !Loads(s.tasks[u].phase)
  {
    forall u | 0 <= u < |s.tasks| && u != t && Digest(cfg, s.tasks[u]) == Digest(cfg, s.tasks[t])
      ensures !Loads(s.tasks[u].phase)
    {
      if Loads(s.tasks[u].phase) {
        OneInside(cfg, s, t, u);
        assert false;
      }
    }
  }

  lemma PayloadIsServed(cfg: Config, s: State, t: TaskId, size: nat)
    requires t < |s.tasks| && s.tasks[t].phase.LoadLocked? && HasLookedUp(s.tasks[t])
    ensures var s' := Apply(cfg, s, Call(t, LoaderReturns(size)));
            && Serves(cfg, s', t, Digest(cfg, s.tasks[t]), Payload(s.tasks[t].request, s.world.database, size))
            && Critical(s'.tasks[t].phase) && Digest(cfg, s'.tasks[t]) == Digest(cfg, s.tasks[t])
  {
  }

  /** A loader that returns under the lock starts to serve its digest. */
  lemma LoadBeginsServing(cfg: Config, run: seq<State>, events: seq<Event>, j: nat, t: TaskId, size: nat)
    requires IsRun(cfg, run, events) && j < |events| && events[j] == Call(t, LoaderReturns(size))
    requires t < |run[j].tasks| && run[j].tasks[t].phase.LoadLocked?
    ensures var task := run[j].tasks[t];
            Serving(cfg, run[j + 1], t, Digest(cfg, task), Payload(task.request, run[j].world.database, size))
  {
    RunKeepsFlights(cfg, run, events, j + 1);
    RunKeepsMetrics(cfg, run, events, j);
    assert StepsAt(cfg, run, events, j) && TallyOk(run[j].tasks[t]);
    PayloadIsServed(cfg, run[j], t, size);
    NobodyElseLoads(cfg, run[j + 1], t);
  }

  lemma ServesNext(cfg: Config, run: seq<State>, events: seq<Event>, i: nat, t: TaskId, d: string, p: Payload)
    requires IsRun(cfg, run, events) && i < |events| && NoCollision(cfg, run[i].tasks)
    requires Serving(cfg, run[i], t, d, p) && !Spoils(cfg, run[i], events[i], t, d)
    ensures Serving(cfg, run[i + 1], t, d, p)
  {
    RunIsSound(cfg, run, events, i, i);
    assert StepsAt(cfg, run, events, i);
    StepServes(cfg, run[i], events[i], t, d, p);
  }

  lemma {:induction false} ServesOn(
      cfg: Config, run: seq<State>, events: seq<Event>, j: nat, i: nat, t: TaskId, d: string, p: Payload)
    requires IsRun(cfg, run, events) && j <= i < |run| && NoCollision(cfg, run[i].tasks)
    requires Serving(cfg, run[j], t, d, p) && Unspoiled(cfg, run, events, j, i, t, d)
    ensures Serving(cfg, run[i], t, d, p)
    decreases i
  {
    if j < i {
      NoCollisionEarlier(cfg, run, events, i - 1, i);
      ServesOn(cfg, run, events, j, i - 1, t, d, p);
      ServesNext(cfg, run, events, i - 1, t, d, p);
    }
  }

  /** From then on it keeps serving, through every event that does not spoil the digest. */
  lemma KeepsServing(cfg: Config, run: seq<State>, events: seq<Event>, j: nat, t: TaskId, size: nat, i: nat)
    requires IsRun(cfg, run, events) && j < i < |run| && NoCollision(cfg, run[i].tasks)
    requires events[j] == Call(t, LoaderReturns(size))
    requires t < |run[j].tasks| && run[j].tasks[t].phase.LoadLocked?
    requires Unspoiled(cfg, run, events, j + 1, i, t, Digest(cfg, run[j].tasks[t]))
    ensures var task := run[j].tasks[t];
            Serving(cfg, run[i], t, Digest(cfg, task), Payload(task.request, run[j].world.database, size))
  {
    LoadBeginsServing(cfg, run, events, j, t, size);
    ServesOn(cfg, run, events, j + 1, i, t, Digest(cfg, run[j].tasks[t]),
             Payload(run[j].tasks[t].request, run[j].world.database, size));
  }

  /**
   * At most one load per digest: if two calls load for the same digest under the lock, then in between the
   * first did not get its entry into the backend, or the entry was lost, damaged, overwritten by a late put
   * or expired, or a second lookup failed. Callers, writers, other digests, failed first lookups, failed
   * loaders and cancellations elsewhere are no reason.
   */
  lemma SecondLoadHasACause(
      cfg: Config, run: seq<State>, events: seq<Event>, j: nat, t: TaskId, size: nat, i: nat, u: TaskId, size': nat)
    returns (k: nat)
    requires IsRun(cfg, run, events) && j < i < |events| && NoCollision(cfg, run[i].tasks)
    requires events[j] == Call(t, LoaderReturns(size)) && events[i] == Call(u, LoaderReturns(size'))
    requires t < |run[j].tasks| && run[j].tasks[t].phase.LoadLocked?
    requires u < |run[i].tasks| && run[i].tasks[u].phase.LoadLocked?
    requires Digest(cfg, run[j].tasks[t]) == Digest(cfg, run[i].tasks[u])
    ensures j < k < i && t < |run[k].tasks| && Spoils(cfg, run[k], events[k], t, Digest(cfg, run[j].tasks[t]))
  {
    var d := Digest(cfg, run[j].tasks[t]);
    TasksStay(cfg, run, events, j, i);
    if Unspoiled(cfg, run, events, j + 1, i, t, d) {
      KeepsServing(cfg, run, events, j, t, size, i);
      assert false;
    } else {
      k :| j + 1 <= k < i && !(t < |run[k].tasks| && !Spoils(cfg, run[k], events[k], t, d));
    }
  }

  lemma {:induction false} TasksStay(cfg: Config, run: seq<State>, events: seq<Event>, j: nat, i: nat)
    requires IsRun(cfg, run, events) && j <= i < |run|
    ensures forall k | j <= k <= i :: |run[j].tasks| <= |run[k].tasks|
  {
    if j < i {
      TasksStay(cfg, run, events, j, i - 1);
      assert StepsAt(cfg, run, events, i - 1);
    }
  }

  /** Everybody shares it: once it is put, each lookup under this digest, first or second, answers with it. */
  lemma LookupsShareTheLoad(
      cfg: Config, run: seq<State>, events: seq<Event>, j: nat, t: TaskId, size: nat, i: nat, u: TaskId, a: Action)
    requires IsRun(cfg, run, events) && j < i < |events| && NoCollision(cfg, run[i + 1].tasks)
    requires events[j] == Call(t, LoaderReturns(size)) && events[i] == Call(u, a)
    requires t < |run[j].tasks| && run[j].tasks[t].phase.LoadLocked?
    requires Unspoiled(cfg, run, events, j + 1, i, t, Digest(cfg, run[j].tasks[t]))
    requires t < |run[i].tasks| && !HasLoaded(run[i].tasks[t].phase)
    requires u < |run[i].tasks| && Digest(cfg, run[i].tasks[u]) == Digest(cfg, run[j].tasks[t])
    requires a.LookedUp? || a.Rechecked?
    ensures u < |run[i + 1].tasks|
    ensures run[i + 1].tasks[u].outcome == Answered(Payload(run[j].tasks[t].request, run[j].world.database, size))
  {
    NoCollisionEarlier(cfg, run, events, i, i + 1);
    RunKeepsMetrics(cfg, run, events, i);
    KeepsServing(cfg, run, events, j, t, size, i);
    assert StepsAt(cfg, run, events, i) && TallyOk(run[i].tasks[u]);
    KeyStays(cfg, run[i], events[i], t);
    assert HasLookedUp(run[i + 1].tasks[u]) && ToldApart(cfg, run[i + 1].tasks[t], run[i + 1].tasks[u]);
  }
}
