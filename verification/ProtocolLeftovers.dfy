/** When the flight table is not empty although nobody uses it, and how that comes about. */
module ProtocolLeftovers {
  import opened Common
  import opened CacheKeys
  import opened Protocol
  import opened ProtocolFlights

  /** Some call relies on the entry of digest `d`. */
  ghost predicate ReliedOn(cfg: Config, s: State, d: string) {
    exists t | 0 <= t < |s.tasks| :: Relies(cfg, s.tasks[t], d)
  }

  ghost predicate Relies(cfg: Config, task: Task, d: string) {
    InFlight(task.phase) && Digest(cfg, task) == d
  }

  /** At this event a call stops relying on the entry of digest `d`. */
  ghost predicate Leaves(cfg: Config, s: State, e: Event, d: string) {
    && e.Call? && e.t < |s.tasks| && Relies(cfg, s.tasks[e.t], d)
    && (e.action.Release? || e.action.LoaderFails? || e.action.EncodeFails? || e.action.Cancel?)
  }

  /**
   * Read off the run: the last call to stop relying on digest `d` before state `i` did not release it as the
   * sole holder of its flight. It failed, was dropped, or another call still held a clone.
   */
  ghost predicate LeftBehind(cfg: Config, run: seq<State>, events: seq<Event>, i: nat, d: string)
    requires i <= |events| < |run|
  {
    if i == 0 then false
    else if Leaves(cfg, run[i - 1], events[i - 1], d)
    then !(events[i - 1].action.Release? && SoleHolder(run[i - 1], events[i - 1].t))
    else LeftBehind(cfg, run, events, i - 1, d)
  }

  /** The calls of an event by which nobody leaves `d`, and after which nobody relies on it. */
  lemma NobodyBefore(cfg: Config, s: State, e: Event, d: string)
    requires Enabled(cfg, s, e) && !Leaves(cfg, s, e, d) && !ReliedOn(cfg, Apply(cfg, s, e), d)
    ensures !ReliedOn(cfg, s, d)
  {
    var s' := Apply(cfg, s, e);
    forall t | 0 <= t < |s.tasks| ensures !Relies(cfg, s.tasks[t], d) {
      assert !Relies(cfg, s'.tasks[t], d);
      if e.Call? && e.t == t {
        assert s'.tasks[t] == Moved(cfg, s, s.tasks[t], e.action);
      }
    }
  }

  /** Only a call that joins `d`, or one that releases it, touches its entry. */
  lemma EntryStays(cfg: Config, s: State, e: Event, d: string)
    requires Enabled(cfg, s, e) && !Leaves(cfg, s, e, d) && !ReliedOn(cfg, Apply(cfg, s, e), d)
    ensures d in s.table.flights <==> d in Apply(cfg, s, e).table.flights
  {
    var s' := Apply(cfg, s, e);
    if e.Call? {
      assert s'.tasks[e.t] == Moved(cfg, s, s.tasks[e.t], e.action) && s'.table == NextTable(cfg, s, e.t, e.action);
      assert !Relies(cfg, s'.tasks[e.t], d);
    }
  }

  lemma LeavingDecides(cfg: Config, run: seq<State>, events: seq<Event>, i: nat, d: string)
    requires IsRun(cfg, run, events) && i < |events| && Leaves(cfg, run[i], events[i], d)
    ensures d in run[i + 1].table.flights <==>
            !(events[i].action.Release? && SoleHolder(run[i], events[i].t))
  {
    var t := events[i].t;
    if events[i].action.Release? {
      ReleaseFindsItsFlight(cfg, run, events, i, t);
    } else {
      EarlyExitLeavesEntry(cfg, run, events, i, t, events[i].action);
    }
  }

  /**
   * When is the table not empty although it is idle? In every state of every run in which nobody relies on
   * digest `d`, an entry is listed for it if and only if the last call that did rely on it left it behind.
   */
  lemma {:induction false} IdleEntries(cfg: Config, run: seq<State>, events: seq<Event>, i: nat, d: string)
    requires IsRun(cfg, run, events) && i < |run| && !ReliedOn(cfg, run[i], d)
    ensures d in run[i].table.flights <==> LeftBehind(cfg, run, events, i, d)
  {
    if i > 0 {
      assert StepsAt(cfg, run, events, i - 1);
      if Leaves(cfg, run[i - 1], events[i - 1], d) {
        LeavingDecides(cfg, run, events, i - 1, d);
      } else {
        NobodyBefore(cfg, run[i - 1], events[i - 1], d);
        EntryStays(cfg, run[i - 1], events[i - 1], d);
        IdleEntries(cfg, run, events, i - 1, d);
      }
    }
  }

  // ------------------------------------------------------------- two such runs

  /** The run goes on with one step of call `t`. */
  lemma Act(cfg: Config, run: seq<State>, events: seq<Event>, t: TaskId, a: Action)
    returns (run': seq<State>, events': seq<Event>)
    requires IsRun(cfg, run, events) && Enabled(cfg, run[|events|], Call(t, a))
    ensures IsRun(cfg, run', events')
    ensures var s, s' := run[|events|], run'[|events'|];
            && s'.tasks == s.tasks[t := Moved(cfg, s, s.tasks[t], a)] && s'.table == NextTable(cfg, s, t, a)
            && s'.world == s.world
  {
    RunGrows(cfg, run, events, Call(t, a));
    run', events' := run + [Apply(cfg, run[|events|], Call(t, a))], events + [Call(t, a)];
  }

  /** Call `t` asks `request` at generation `g`, and stands at `phase`. */
  ghost predicate Stands(s: State, t: TaskId, request: CacheKeyInput, g: nat, phase: Phase) {
    t < |s.tasks| && s.tasks[t].request == request && s.tasks[t].generation == g && s.tasks[t].phase == phase
  }

  /** The others stand where they stood, holding what they held. */
  ghost predicate OthersStand(s: State, s': State, t: TaskId) {
    && s'.world == s.world && |s'.tasks| >= |s.tasks|
    && forall u | 0 <= u < |s.tasks| && u != t :: s'.tasks[u] == s.tasks[u]
  }

  lemma Comes(cfg: Config, run: seq<State>, events: seq<Event>, request: CacheKeyInput)
    returns (run': seq<State>, events': seq<Event>)
    requires IsRun(cfg, run, events) && Cacheable(cfg, request, false)
    ensures IsRun(cfg, run', events')
    ensures var s, s' := run[|events|], run'[|events'|];
            && OthersStand(s, s', |s.tasks|) && |s'.tasks| == |s.tasks| + 1 && s'.table == s.table
            && Stands(s', |s.tasks|, request, Generation(s.world, request.namespace), Join)
  {
    var s, t := run[|events|], |run[|events|].tasks|;
    RunGrows(cfg, run, events, Begin(request, false));
    run', events' := run + [Apply(cfg, s, Begin(request, false))], events + [Begin(request, false)];
    run', events' := Act(cfg, run', events', t, GenerationRead);
    run', events' := Act(cfg, run', events', t, LookupFails);
  }

  lemma Joins(cfg: Config, run: seq<State>, events: seq<Event>, t: TaskId, request: CacheKeyInput, g: nat)
    returns (run': seq<State>, events': seq<Event>)
    requires IsRun(cfg, run, events) && Stands(run[|events|], t, request, g, Join)
    ensures IsRun(cfg, run', events')
    ensures var s, s' := run[|events|], run'[|events'|];
            && OthersStand(s, s', t) && |s'.tasks| == |s.tasks| && Stands(s', t, request, g, Waiting)
            && s'.table.owner == s.table.owner && cfg.digest(request, g) in s'.table.flights
            && s'.tasks[t].flight == s'.table.flights[cfg.digest(request, g)]
            && (cfg.digest(request, g) in s.table.flights ==> s'.table == s.table)
  {
    run', events' := Act(cfg, run, events, t, JoinFlight);
  }

  /** Through the lock, up to its own loader. */
  lemma Enters(cfg: Config, run: seq<State>, events: seq<Event>, t: TaskId, request: CacheKeyInput, g: nat)
    returns (run': seq<State>, events': seq<Event>)
    requires IsRun(cfg, run, events) && Stands(run[|events|], t, request, g, Waiting)
    requires run[|events|].table.owner == map[]
    ensures IsRun(cfg, run', events')
    ensures var s, s' := run[|events|], run'[|events'|];
            && OthersStand(s, s', t) && |s'.tasks| == |s.tasks| && Stands(s', t, request, g, LoadLocked)
            && s'.tasks[t].flight == s.tasks[t].flight && s'.table.flights == s.table.flights
            && s'.table.owner == map[s.tasks[t].flight := t]
  {
    run', events' := Act(cfg, run, events, t, Acquire);
    run', events' := Act(cfg, run', events', t, RecheckFails);
  }

  /** The loader returns more than is stored, and the lock is given back. */
  lemma Delivers(cfg: Config, run: seq<State>, events: seq<Event>, t: TaskId, request: CacheKeyInput, g: nat)
    returns (run': seq<State>, events': seq<Event>)
    requires IsRun(cfg, run, events) && Stands(run[|events|], t, request, g, LoadLocked)
    requires run[|events|].table.owner == map[run[|events|].tasks[t].flight := t]
    ensures IsRun(cfg, run', events')
    ensures var s, s' := run[|events|], run'[|events'|];
            && OthersStand(s, s', t) && |s'.tasks| == |s.tasks| && Stands(s', t, request, g, Releasing)
            && s'.tasks[t].flight == s.tasks[t].flight && s'.tasks[t].outcome.Answered?
            && s'.table.flights == s.table.flights && s'.table.owner == map[]
  {
    run', events' := Act(cfg, run, events, t, LoaderReturns(cfg.maxValueSize + 1));
    run', events' := Act(cfg, run', events', t, Encoded);
    run', events' := Act(cfg, run', events', t, Unlock);
  }

  /** The loader fails: the lock is given back, the entry stays. */
  lemma Fails(cfg: Config, run: seq<State>, events: seq<Event>, t: TaskId, request: CacheKeyInput, g: nat)
    returns (run': seq<State>, events': seq<Event>)
    requires IsRun(cfg, run, events) && Stands(run[|events|], t, request, g, LoadLocked)
    ensures IsRun(cfg, run', events')
    ensures var s, s' := run[|events|], run'[|events'|];
            && OthersStand(s, s', t) && |s'.tasks| == |s.tasks| && Stands(s', t, request, g, Dropping)
            && s'.table.flights == s.table.flights
  {
    run', events' := Act(cfg, run, events, t, LoaderFails);
  }

  /** A release beside another holder of the same flight leaves the table as it is. */
  lemma ReleasesBeside(
      cfg: Config, run: seq<State>, events: seq<Event>, t: TaskId, u: TaskId, request: CacheKeyInput, g: nat)
    returns (run': seq<State>, events': seq<Event>)
    requires IsRun(cfg, run, events) && Stands(run[|events|], t, request, g, Releasing) && t != u
    requires u < |run[|events|].tasks| && HoldsArc(run[|events|].tasks[u].phase)
    requires run[|events|].tasks[u].flight == run[|events|].tasks[t].flight
    ensures IsRun(cfg, run', events')
    ensures var s, s' := run[|events|], run'[|events'|];
            && OthersStand(s, s', t) && |s'.tasks| == |s.tasks| && Stands(s', t, request, g, Dropping)
            && s'.tasks[t].flight == s.tasks[t].flight && s'.tasks[t].outcome == s.tasks[t].outcome
            && s'.table == s.table
  {
    var s := run[|events|];
    RunKeepsFlights(cfg, run, events, |events|);
    if StrongCount(s.tasks, s.table.flights, s.tasks[t].flight) == 2 {
      CountOfTwo(cfg, s, t);
      assert false;
    }
    run', events' := Act(cfg, run, events, t, Release);
  }

  lemma LetsGo(cfg: Config, run: seq<State>, events: seq<Event>, t: TaskId, request: CacheKeyInput, g: nat)
    returns (run': seq<State>, events': seq<Event>)
    requires IsRun(cfg, run, events) && Stands(run[|events|], t, request, g, Dropping)
    ensures IsRun(cfg, run', events')
    ensures var s, s' := run[|events|], run'[|events'|];
            && OthersStand(s, s', t) && |s'.tasks| == |s.tasks| && Stands(s', t, request, g, Finished)
            && s'.tasks[t].outcome == s.tasks[t].outcome && s'.table == s.table
  {
    run', events' := Act(cfg, run, events, t, DropArc);
  }

  /** Every call is over. */
  ghost predicate Idle(s: State) {
    forall t | 0 <= t < |s.tasks| :: s.tasks[t].phase.Finished?
  }

  /** A single call whose loader fails leaves an idle table that lists its digest. */
  lemma FailedLoadLeavesEntry(cfg: Config, request: CacheKeyInput) returns (run: seq<State>, events: seq<Event>)
    requires Cacheable(cfg, request, false)
    ensures IsRun(cfg, run, events) && Idle(run[|events|])
    ensures cfg.digest(request, 0) in run[|events|].table.flights
  {
    run, events := Comes(cfg, [INITIAL], [], request);
    run, events := Joins(cfg, run, events, 0, request, 0);
    run, events := Enters(cfg, run, events, 0, request, 0);
    run, events := Fails(cfg, run, events, 0, request, 0);
    run, events := LetsGo(cfg, run, events, 0, request, 0);
  }

  /**
   * No error is needed: two calls that both answer, the second releasing while the first still holds its
   * clone, leave an idle table that lists their digest too.
   */
  lemma OverlappingReleasesLeaveEntry(cfg: Config, request: CacheKeyInput)
    returns (run: seq<State>, events: seq<Event>)
    requires Cacheable(cfg, request, false)
    ensures IsRun(cfg, run, events) && Idle(run[|events|])
    ensures forall t | 0 <= t < |run[|events|].tasks| :: run[|events|].tasks[t].outcome.Answered?
    ensures cfg.digest(request, 0) in run[|events|].table.flights
  {
    run, events := BothReleased(cfg, request);
    run, events := LetsGo(cfg, run, events, 0, request, 0);
    run, events := LetsGo(cfg, run, events, 1, request, 0);
  }

  lemma BothWait(cfg: Config, request: CacheKeyInput) returns (run: seq<State>, events: seq<Event>)
    requires Cacheable(cfg, request, false)
    ensures IsRun(cfg, run, events) && |run[|events|].tasks| == 2 && run[|events|].table.owner == map[]
    ensures Stands(run[|events|], 0, request, 0, Waiting) && Stands(run[|events|], 1, request, 0, Waiting)
    ensures run[|events|].tasks[0].flight == run[|events|].tasks[1].flight
    ensures cfg.digest(request, 0) in run[|events|].table.flights
  {
    run, events := Comes(cfg, [INITIAL], [], request);
    run, events := Joins(cfg, run, events, 0, request, 0);
    run, events := Comes(cfg, run, events, request);
    run, events := Joins(cfg, run, events, 1, request, 0);
  }

  lemma BothReleased(cfg: Config, request: CacheKeyInput) returns (run: seq<State>, events: seq<Event>)
    requires Cacheable(cfg, request, false)
    ensures IsRun(cfg, run, events) && |run[|events|].tasks| == 2
    ensures Stands(run[|events|], 0, request, 0, Dropping) && Stands(run[|events|], 1, request, 0, Dropping)
    ensures run[|events|].tasks[0].outcome.Answered? && run[|events|].tasks[1].outcome.Answered?
    ensures cfg.digest(request, 0) in run[|events|].table.flights
  {
    run, events := BothWait(cfg, request);
    run, events := Enters(cfg, run, events, 0, request, 0);
    run, events := Delivers(cfg, run, events, 0, request, 0);
    run, events := ReleasesBeside(cfg, run, events, 0, 1, request, 0);
    run, events := Enters(cfg, run, events, 1, request, 0);
    run, events := Delivers(cfg, run, events, 1, request, 0);
    run, events := ReleasesBeside(cfg, run, events, 1, 0, request, 0);
  }
}
