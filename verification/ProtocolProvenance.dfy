/** Where a hit comes from: somebody loaded it, sealed it less than a TTL ago, and it was small enough. */
module ProtocolProvenance {
  import opened Common
  import opened Protocol
  import opened ProtocolMetrics

  /** Before state `i`, call `u` sealed this envelope for digest `d`, at event `j`. */
  ghost predicate SealsAt(
      cfg: Config, run: seq<State>, events: seq<Event>, j: nat, u: TaskId, d: string, envelope: Envelope)
    requires j < |events| < |run|
  {
    && events[j] == Call(u, Encoded) && u < |run[j].tasks|
    && var task := run[j].tasks[u];
       && Digest(cfg, task) == d && task.generation == envelope.generation && task.value == envelope.payload
       && task.value.size <= cfg.maxValueSize
       && envelope.expiresAt <= run[j].world.now + cfg.ttlMs && envelope.expiresAt <= U64_MAX
  }

  ghost predicate WasSealed(
      cfg: Config, run: seq<State>, events: seq<Event>, i: nat, d: string, envelope: Envelope)
    requires i <= |events| < |run|
  {
    exists j, u: TaskId | 0 <= j < i :: SealsAt(cfg, run, events, j, u, d, envelope)
  }

  /** Everything that is stored, may land late, or is being put, was sealed before state `i`. */
  ghost predicate AllSealed(cfg: Config, run: seq<State>, events: seq<Event>, i: nat, s: State)
    requires i <= |events| < |run|
  {
    && (forall d | d in s.backend.store && s.backend.store[d].Sealed? ::
          WasSealed(cfg, run, events, i, d, s.backend.store[d].envelope))
    && (forall x | x in s.backend.late :: WasSealed(cfg, run, events, i, x.0, x.1))
    && (forall t | 0 <= t < |s.tasks| && s.tasks[t].phase.Putting? ::
          WasSealed(cfg, run, events, i, Digest(cfg, s.tasks[t]), SealedBy(s.tasks[t])))
  }

  lemma StaysSealed(cfg: Config, run: seq<State>, events: seq<Event>, i: nat, s: State)
    requires i + 1 <= |events| < |run| && AllSealed(cfg, run, events, i, s)
    ensures AllSealed(cfg, run, events, i + 1, s)
  {
    assert forall d, envelope | WasSealed(cfg, run, events, i, d, envelope) ::
        WasSealed(cfg, run, events, i + 1, d, envelope);
  }

  /** The only envelope that comes up in a step is the one that the step seals. */
  lemma CallKeepsSealed(cfg: Config, run: seq<State>, events: seq<Event>, i: nat, t: TaskId, a: Action)
    requires IsRun(cfg, run, events) && i < |events| && events[i] == Call(t, a)
    requires AllSealed(cfg, run, events, i + 1, run[i])
    ensures AllSealed(cfg, run, events, i + 1, run[i + 1])
  {
    assert StepsAt(cfg, run, events, i);
    var task, moved := run[i].tasks[t], Moved(cfg, run[i], run[i].tasks[t], a);
    assert run[i + 1].tasks == run[i].tasks[t := moved];
    if moved.phase.Putting? {
      assert a.Encoded?;
      assert SealsAt(cfg, run, events, i, t, Digest(cfg, moved), SealedBy(moved));
    }
  }

  lemma {:induction false} RunKeepsSealed(cfg: Config, run: seq<State>, events: seq<Event>, i: nat)
    requires IsRun(cfg, run, events) && i < |run|
    ensures AllSealed(cfg, run, events, i, run[i])
  {
    if i > 0 {
      RunKeepsSealed(cfg, run, events, i - 1);
      StaysSealed(cfg, run, events, i - 1, run[i - 1]);
      assert StepsAt(cfg, run, events, i - 1);
      match events[i - 1]
      case Call(t, a) => CallKeepsSealed(cfg, run, events, i - 1, t, a);
      case _ =>
    }
  }

  // --------------------------------------------------------------------- the loader

  /** Before event `i`, the call's own loader returned the value it holds. */
  ghost predicate LoadsAt(run: seq<State>, events: seq<Event>, x: nat, u: TaskId, value: Payload)
    requires x < |events| < |run|
  {
    && events[x] == Call(u, LoaderReturns(value.size)) && u < |run[x].tasks|
    && value.query == run[x].tasks[u].request && value.readAt == run[x].world.database
  }

  lemma {:induction false} EncodingHasLoaded(cfg: Config, run: seq<State>, events: seq<Event>, i: nat, u: TaskId)
    returns (x: nat)
    requires IsRun(cfg, run, events) && i < |run| && u < |run[i].tasks| && run[i].tasks[u].phase.Encoding?
    ensures x < i && LoadsAt(run, events, x, u, run[i].tasks[u].value)
  {
    if i == 0 {
      assert false;
    } else {
      assert StepsAt(cfg, run, events, i - 1);
      var e := events[i - 1];
      if e.Call? && e.t == u {
        x := i - 1;
      } else {
        x := EncodingHasLoaded(cfg, run, events, i - 1, u);
      }
    }
  }

  /**
   * Every hit has a history. If a lookup, the first or the second, answers a call, then the payload had come
   * from the loader of some call at event `x`; that call had sealed it under the same digest at event `j`, at
   * a time less than one TTL before the hit; and it is no larger than the limit.
   */
  lemma HitsWereLoaded(cfg: Config, run: seq<State>, events: seq<Event>, i: nat, t: TaskId, a: Action)
    returns (x: nat, j: nat, u: TaskId)
    requires IsRun(cfg, run, events) && i < |events| && events[i] == Call(t, a) && (a.LookedUp? || a.Rechecked?)
    requires t < |run[i].tasks| && t < |run[i + 1].tasks| && run[i + 1].tasks[t].outcome.Answered?
    ensures x < j < i && events[j] == Call(u, Encoded) && u < |run[j].tasks|
    ensures var p := run[i + 1].tasks[t].outcome.payload;
            && LoadsAt(run, events, x, u, p) && run[j].tasks[u].value == p && p.size <= cfg.maxValueSize
            && Digest(cfg, run[j].tasks[u]) == Digest(cfg, run[i].tasks[t])
            && run[j].tasks[u].generation == run[i].tasks[t].generation
            && run[i].world.now < run[j].world.now + cfg.ttlMs
  {
    assert StepsAt(cfg, run, events, i);
    RunKeepsSealed(cfg, run, events, i);
    RunKeepsMetrics(cfg, run, events, i);
    assert TallyOk(run[i].tasks[t]);
    var s, d := run[i], Digest(cfg, run[i].tasks[t]);
    assert Fresh(cfg, s, s.tasks[t]).Some?;
    assert WasSealed(cfg, run, events, i, d, s.backend.store[d].envelope);
    j, u :| 0 <= j < i && SealsAt(cfg, run, events, j, u, d, s.backend.store[d].envelope);
    assert StepsAt(cfg, run, events, j);
    x := EncodingHasLoaded(cfg, run, events, j, u);
  }
}
