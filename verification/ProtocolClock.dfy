/** Freshness and a clock that falls back: the protocol's `now` is what `now_ms` answers. */
module ProtocolClock {
  import opened Common
  import opened Protocol

  /** A decodable entry of the call's generation lies under its digest. */
  predicate Lies(cfg: Config, s: State, task: Task) {
    var d, store := Digest(cfg, task), s.backend.store;
    d in store && store[d].Sealed? && store[d].envelope.generation == task.generation
  }

  /** Whatever a run has put, or left to land late, expires after zero. */
  ghost predicate Positive(s: State) {
    && (forall d | d in s.backend.store && s.backend.store[d].Sealed? :: s.backend.store[d].envelope.expiresAt > 0)
    && (forall x | x in s.backend.late :: x.1.expiresAt > 0)
    && (forall t | 0 <= t < |s.tasks| && s.tasks[t].phase.Putting? :: s.tasks[t].expiresAt > 0)
  }

  lemma StepKeepsPositive(cfg: Config, s: State, e: Event)
    requires cfg.ttlMs > 0 && Positive(s) && Enabled(cfg, s, e)
    ensures Positive(Apply(cfg, s, e))
  {
    match e
    case Call(t, a) =>
      var s' := Apply(cfg, s, e);
      assert s'.tasks == s.tasks[t := Moved(cfg, s, s.tasks[t], a)];
      assert s'.backend == NextBackend(cfg, s.backend, s.tasks[t], a);
    case _ =>
  }

  lemma {:induction false} RunKeepsPositive(cfg: Config, run: seq<State>, events: seq<Event>, i: nat)
    requires IsRun(cfg, run, events) && i < |run| && cfg.ttlMs > 0
    ensures Positive(run[i])
  {
    if i > 0 {
      RunKeepsPositive(cfg, run, events, i - 1);
      assert StepsAt(cfg, run, events, i - 1);
      StepKeepsPositive(cfg, run[i - 1], events[i - 1]);
    }
  }

  /** For every call: a lookup finds an entry if and only if one lies there that expires after now. */
  lemma FreshIff(cfg: Config, s: State, task: Task)
    ensures Fresh(cfg, s, task).Some? <==>
            Lies(cfg, s, task) && s.backend.store[Digest(cfg, task)].envelope.expiresAt > s.world.now
  {
  }

  /**
   * A clock that reads zero, as it does anywhere before the epoch, rejects nothing on account of age: in
   * every run with a positive TTL, a lookup finds whatever lies there, however long ago it expired.
   */
  lemma ClockAtZeroRejectsNothing(cfg: Config, run: seq<State>, events: seq<Event>, i: nat, task: Task)
    requires IsRun(cfg, run, events) && i < |run| && cfg.ttlMs > 0 && run[i].world.now == 0
    ensures Fresh(cfg, run[i], task).Some? <==> Lies(cfg, run[i], task)
  {
    RunKeepsPositive(cfg, run, events, i);
    FreshIff(cfg, run[i], task);
  }
}
