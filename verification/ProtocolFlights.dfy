/** The flight table is safe: reclaiming a flight at `strong_count == 2` never lets two loaders of a digest run. */
module ProtocolFlights {
  import opened Common
  import opened CacheKeys
  import opened Protocol

  /** Flights are numbered once, and no two digests share one. */
  ghost predicate TableInv(s: State) {
    && (forall d | d in s.table.flights :: s.table.flights[d] < s.table.nextFlight)
    && (forall d, e |
          d in s.table.flights && e in s.table.flights && s.table.flights[d] == s.table.flights[e] :: d == e)
  }

  /** A call that still relies on the table holds exactly the flight listed under its digest. */
  ghost predicate HolderInv(cfg: Config, s: State) {
    && (forall t | 0 <= t < |s.tasks| && HoldsArc(s.tasks[t].phase) :: s.tasks[t].flight < s.table.nextFlight)
    && (forall t | 0 <= t < |s.tasks| && InFlight(s.tasks[t].phase) ::
          Digest(cfg, s.tasks[t]) in s.table.flights && s.table.flights[Digest(cfg, s.tasks[t])] == s.tasks[t].flight)
  }

  /** The mutex of a flight is held by exactly the call that is inside it. */
  ghost predicate LockInv(s: State) {
    && (forall t | 0 <= t < |s.tasks| && Critical(s.tasks[t].phase) ::
          s.tasks[t].flight in s.table.owner && s.table.owner[s.tasks[t].flight] == t)
    && (forall f | f in s.table.owner ::
          && s.table.owner[f] < |s.tasks| && Critical(s.tasks[s.table.owner[f]].phase)
          && s.tasks[s.table.owner[f]].flight == f)
  }

  ghost predicate FlightInv(cfg: Config, s: State) {
    TableInv(s) && HolderInv(cfg, s) && LockInv(s)
  }

  /** `s'` is `s` with call `t` replaced by `task`. */
  ghost predicate Moves(s: State, s': State, t: TaskId, task: Task) {
    t < |s.tasks| && s'.tasks == s.tasks[t := task]
  }

  ghost predicate SameTable(s: State, s': State) {
    s'.table.flights == s.table.flights && s'.table.nextFlight == s.table.nextFlight
  }

  /** Two stages of one call that hold the same things. */
  ghost predicate SameStanding(cfg: Config, a: Task, b: Task) {
    && StandingIn(b.phase) == StandingIn(a.phase)
    && (HoldsArc(a.phase) ==> b.flight == a.flight && Digest(cfg, b) == Digest(cfg, a))
  }

  lemma StandingKeeps(cfg: Config, s: State, s': State, t: TaskId, task: Task)
    requires FlightInv(cfg, s) && Moves(s, s', t, task) && SameTable(s, s') && s'.table.owner == s.table.owner
    requires SameStanding(cfg, s.tasks[t], task)
    ensures FlightInv(cfg, s')
  {
  }

  /** Joining: the newcomer holds what the table lists; a new flight gets an unused number. */
  lemma JoinKeeps(cfg: Config, s: State, s': State, t: TaskId, task: Task)
    requires FlightInv(cfg, s) && Moves(s, s', t, task) && s'.table.owner == s.table.owner && s.tasks[t].phase.Join?
    requires task.phase.Waiting? && Digest(cfg, task) == Digest(cfg, s.tasks[t])
    requires task.flight == FlightFor(cfg, s.table, task)
    requires s'.table == ListFlight(s.table, Digest(cfg, task))
    ensures FlightInv(cfg, s')
  {
  }

  lemma AcquireKeeps(cfg: Config, s: State, s': State, t: TaskId, task: Task)
    requires FlightInv(cfg, s) && Moves(s, s', t, task) && SameTable(s, s')
    requires s.tasks[t].phase.Waiting? && s.tasks[t].flight !in s.table.owner
    requires s'.table.owner == s.table.owner[task.flight := t]
    requires task.phase.Recheck? && task.flight == s.tasks[t].flight && Digest(cfg, task) == Digest(cfg, s.tasks[t])
    ensures FlightInv(cfg, s')
  {
  }

  /** Who relies on the table does so still, with at most one fewer. */
  lemma UnlockKeepsHolders(cfg: Config, s: State, s': State, t: TaskId, task: Task)
    requires HolderInv(cfg, s) && Moves(s, s', t, task) && SameTable(s, s') && Critical(s.tasks[t].phase)
    requires task.phase.Releasing? || task.phase.Dropping?
    requires task.flight == s.tasks[t].flight && Digest(cfg, task) == Digest(cfg, s.tasks[t])
    ensures HolderInv(cfg, s')
  {
  }

  /** The freed lock had no other owner; every other lock keeps its own. */
  lemma UnlockKeepsLocks(s: State, s': State, t: TaskId, task: Task)
    requires LockInv(s) && Moves(s, s', t, task) && Critical(s.tasks[t].phase) && !Critical(task.phase)
    requires s'.table.owner == s.table.owner - {s.tasks[t].flight}
    ensures LockInv(s')
  {
  }

  /** Leaving the lock: the call keeps its flight, in the table if it is to release it. */
  lemma UnlockKeeps(cfg: Config, s: State, s': State, t: TaskId, task: Task)
    requires FlightInv(cfg, s) && Moves(s, s', t, task) && SameTable(s, s') && Critical(s.tasks[t].phase)
    requires s'.table.owner == s.table.owner - {s.tasks[t].flight}
    requires task.phase.Releasing? || task.phase.Dropping?
    requires task.flight == s.tasks[t].flight && Digest(cfg, task) == Digest(cfg, s.tasks[t])
    ensures FlightInv(cfg, s')
  {
    UnlockKeepsHolders(cfg, s, s', t, task);
    UnlockKeepsLocks(s, s', t, task);
  }

  /** Leaving from outside the lock only gives up what was held. */
  lemma LeaveKeeps(cfg: Config, s: State, s': State, t: TaskId, task: Task)
    requires FlightInv(cfg, s) && Moves(s, s', t, task) && SameTable(s, s') && s'.table.owner == s.table.owner
    requires !Critical(s.tasks[t].phase) && task.flight == s.tasks[t].flight
    requires task.phase.Finished? || (HoldsArc(s.tasks[t].phase) && task.phase.Dropping?)
    ensures FlightInv(cfg, s')
  {
  }

  /** Nobody else holds a clone of the flight of call `t`. */
  ghost predicate SoleHolder(s: State, t: TaskId)
    requires t < |s.tasks|
  {
    forall u | 0 <= u < |s.tasks| && HoldsArc(s.tasks[u].phase) && s.tasks[u].flight == s.tasks[t].flight :: u == t
  }

  /** A count of two is the table and the caller: nobody else holds this flight. */
  lemma CountOfTwo(cfg: Config, s: State, t: TaskId)
    requires FlightInv(cfg, s) && t < |s.tasks| && InFlight(s.tasks[t].phase)
    requires StrongCount(s.tasks, s.table.flights, s.tasks[t].flight) == 2
    ensures SoleHolder(s, t)
  {
    var f, d := s.tasks[t].flight, Digest(cfg, s.tasks[t]);
    assert t in Holders(s.tasks, f) && d in TableRefs(s.table.flights, f);
    forall u | 0 <= u < |s.tasks| && HoldsArc(s.tasks[u].phase) && s.tasks[u].flight == f ensures u == t {
      assert u in Holders(s.tasks, f);
      if u != t {
        TwoMembers(Holders(s.tasks, f), t, u);
        SubsetCardinality({d}, TableRefs(s.table.flights, f));
        assert false;
      }
    }
  }

  /** An entry that nobody relies on may go. */
  lemma UnlistKeeps(cfg: Config, s: State, s': State, d: string)
    requires FlightInv(cfg, s) && s'.tasks == s.tasks
    requires s'.table == s.table.(flights := s.table.flights - {d})
    requires forall u | 0 <= u < |s.tasks| && InFlight(s.tasks[u].phase) :: Digest(cfg, s.tasks[u]) != d
    ensures FlightInv(cfg, s')
  {
  }

  /** Releasing: the caller lets go, and if it was the only holder its entry goes too. */
  lemma ReleaseKeeps(cfg: Config, s: State, s': State, t: TaskId, task: Task)
    requires FlightInv(cfg, s) && Moves(s, s', t, task) && s.tasks[t].phase.Releasing?
    requires task.phase.Dropping? && task.flight == s.tasks[t].flight
    requires s'.table == ReleaseFlight(s.tasks, s.table, Digest(cfg, s.tasks[t]), task.flight)
    ensures FlightInv(cfg, s')
  {
    var gone, d := s.(tasks := s'.tasks), Digest(cfg, s.tasks[t]);
    LeaveKeeps(cfg, s, gone, t, task);
    if s'.table != s.table {
      CountOfTwo(cfg, s, t);
      forall u | 0 <= u < |gone.tasks| && InFlight(gone.tasks[u].phase) ensures Digest(cfg, gone.tasks[u]) != d {
        assert u != t && gone.tasks[u] == s.tasks[u];
      }
      UnlistKeeps(cfg, gone, s', d);
    }
  }

  // -------------------------------------------------------------------- events

  /** Actions that neither take nor give back a flight or its lock. */
  predicate Quiet(task: Task, a: Action) {
    && !Unlocks(task, a) && !a.JoinFlight? && !a.Acquire? && !a.Release? && !a.DropArc? && !a.Cancel?
    && !(a.LoaderFails? && task.phase.LoadAlone?)
  }

  lemma QuietStanding(cfg: Config, s: State, task: Task, a: Action)
    requires Fits(cfg, s, task, a) && Quiet(task, a)
    ensures SameStanding(cfg, task, Moved(cfg, s, task, a))
  {
  }

  lemma CallKeepsFlights(cfg: Config, s: State, t: TaskId, a: Action)
    requires FlightInv(cfg, s) && Enabled(cfg, s, Call(t, a))
    ensures FlightInv(cfg, Apply(cfg, s, Call(t, a)))
  {
    var task, s' := Moved(cfg, s, s.tasks[t], a), Apply(cfg, s, Call(t, a));
    assert Moves(s, s', t, task) && s'.table == NextTable(cfg, s, t, a);
    if Quiet(s.tasks[t], a) {
      QuietStanding(cfg, s, s.tasks[t], a);
      StandingKeeps(cfg, s, s', t, task);
    } else if Unlocks(s.tasks[t], a) {
      UnlockKeeps(cfg, s, s', t, task);
    } else if a.JoinFlight? {
      JoinKeeps(cfg, s, s', t, task);
    } else if a.Acquire? {
      AcquireKeeps(cfg, s, s', t, task);
    } else if a.Release? {
      ReleaseKeeps(cfg, s, s', t, task);
    } else {
      LeaveKeeps(cfg, s, s', t, task);
    }
  }

  lemma StartKeeps(cfg: Config, s: State, s': State, task: Task)
    requires FlightInv(cfg, s) && !HoldsArc(task.phase)
    requires s'.table == s.table && s'.tasks == s.tasks + [task]
    ensures FlightInv(cfg, s')
  {
  }

  /** Every event keeps the flight table safe. */
  lemma StepKeepsFlights(cfg: Config, s: State, e: Event)
    requires FlightInv(cfg, s) && Enabled(cfg, s, e)
    ensures FlightInv(cfg, Apply(cfg, s, e))
  {
    match e
    case Begin(request, inTransaction) => StartKeeps(cfg, s, Apply(cfg, s, e), NewTask(cfg, s, request, inTransaction));
    case Call(t, a) => CallKeepsFlights(cfg, s, t, a);
    case _ =>
  }

  lemma {:induction false} RunKeepsFlights(cfg: Config, run: seq<State>, events: seq<Event>, i: nat)
    requires IsRun(cfg, run, events) && i < |run|
    ensures FlightInv(cfg, run[i])
  {
    if i > 0 {
      RunKeepsFlights(cfg, run, events, i - 1);
      assert StepsAt(cfg, run, events, i - 1);
      StepKeepsFlights(cfg, run[i - 1], events[i - 1]);
    }
  }

  /**
   * Single flight: in every state of every run, whatever fails, is cancelled or is reclaimed, two calls
   * under the lock for the same digest are the same call. In particular at most one loads.
   */
  lemma OneLoaderPerDigest(cfg: Config, run: seq<State>, events: seq<Event>, i: nat, t: TaskId, u: TaskId)
    requires IsRun(cfg, run, events) && i < |run| && t < |run[i].tasks| && u < |run[i].tasks|
    requires Critical(run[i].tasks[t].phase) && Critical(run[i].tasks[u].phase)
    requires Digest(cfg, run[i].tasks[t]) == Digest(cfg, run[i].tasks[u])
    ensures t == u
  {
    RunKeepsFlights(cfg, run, events, i);
  }

  /** Conversely a sole holder counts two: itself and the one entry of its flight. */
  lemma SoleHolderCountsTwo(cfg: Config, s: State, t: TaskId)
    requires FlightInv(cfg, s) && t < |s.tasks| && InFlight(s.tasks[t].phase) && SoleHolder(s, t)
    ensures StrongCount(s.tasks, s.table.flights, s.tasks[t].flight) == 2
  {
    var f, d := s.tasks[t].flight, Digest(cfg, s.tasks[t]);
    assert Holders(s.tasks, f) == {t};
    assert TableRefs(s.table.flights, f) == {d};
  }

  /**
   * The defensive cases of `release_flight` are dead code: a call that releases always finds its digest in
   * the table, with its own flight under it. And the count of two is exact: the entry goes if and only if
   * nobody else holds or waits for that flight.
   */
  lemma ReleaseFindsItsFlight(cfg: Config, run: seq<State>, events: seq<Event>, i: nat, t: TaskId)
    requires IsRun(cfg, run, events) && i < |events| && events[i] == Call(t, Release) && t < |run[i].tasks|
    ensures var s, task := run[i], run[i].tasks[t];
            && Digest(cfg, task) in s.table.flights && s.table.flights[Digest(cfg, task)] == task.flight
            && (Digest(cfg, task) !in run[i + 1].table.flights <==> SoleHolder(s, t))
  {
    RunKeepsFlights(cfg, run, events, i);
    assert StepsAt(cfg, run, events, i);
    if SoleHolder(run[i], t) {
      SoleHolderCountsTwo(cfg, run[i], t);
    } else if StrongCount(run[i].tasks, run[i].table.flights, run[i].tasks[t].flight) == 2 {
      CountOfTwo(cfg, run[i], t);
      assert false;
    }
  }

  /** Leaving early skips `release_flight`: the entry always stays, whoever else holds the flight or not. */
  lemma EarlyExitLeavesEntry(cfg: Config, run: seq<State>, events: seq<Event>, i: nat, t: TaskId, a: Action)
    requires IsRun(cfg, run, events) && i < |events| && events[i] == Call(t, a) && t < |run[i].tasks|
    requires (a.LoaderFails? || a.EncodeFails? || a.Cancel?) && InFlight(run[i].tasks[t].phase)
    ensures Digest(cfg, run[i].tasks[t]) in run[i + 1].table.flights
    ensures run[i + 1].table.flights == run[i].table.flights
  {
    RunKeepsFlights(cfg, run, events, i);
    assert StepsAt(cfg, run, events, i);
  }

  /** Nobody waits on a dead lock: a held mutex belongs to a call that is still inside it and can move on. */
  lemma HeldLockHasLiveOwner(cfg: Config, run: seq<State>, events: seq<Event>, i: nat, f: FlightId) returns (a: Action)
    requires IsRun(cfg, run, events) && i < |run| && f in run[i].table.owner
    ensures Enabled(cfg, run[i], Call(run[i].table.owner[f], a)) && !a.Cancel?
    ensures run[i].tasks[run[i].table.owner[f]].flight == f
  {
    RunKeepsFlights(cfg, run, events, i);
    match run[i].tasks[run[i].table.owner[f]].phase
    case Recheck => a := Rechecked;
    case LoadLocked => a := LoaderFails;
    case Encoding => a := Encoded;
    case Putting => a := PutDone;
    case _ => a := Unlock;
  }
}
