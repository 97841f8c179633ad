/** The Redis circuit breaker: a failure counter, a deadline, and the counters that report on them. */
module CircuitBreaker {
  import opened Common

  datatype Config = Config(failureThreshold: nat, cooldownMs: nat) {
    /** `circuit_failure_threshold.max(1)` */
    function Threshold(): nat {
      if failureThreshold == 0 then 1 else failureThreshold
    }
  }

  datatype Outcome = Success | Failure | TimedOut

  /** One call: the clock when the circuit is checked, the clock when the operation ends, and how it ends. */
  datatype Attempt = Attempt(start: nat, end: nat, outcome: Outcome)

  datatype Result = Rejected | Value | Error

  datatype State = State(
    operations: nat, errors: nat, timeouts: nat, circuitOpens: nat, consecutiveFailures: nat, openUntil: nat)

  const INITIAL := State(0, 0, 0, 0, 0, 0)

  // ------------------------------------------------------------ specification

  function RecordFailure(cfg: Config, s: State, now: nat): State {
    var failures := s.consecutiveFailures + 1;
    if failures >= cfg.Threshold() then
      s.(openUntil := SaturatingAdd(now, cfg.cooldownMs), circuitOpens := s.circuitOpens + 1, consecutiveFailures := 0)
    else
      s.(consecutiveFailures := failures)
  }

  predicate Admits(s: State, now: nat) {
    s.openUntil <= now
  }

  function Step(cfg: Config, s: State, a: Attempt): State {
    if !Admits(s, a.start) then s
    else
      match a.outcome
      case Success => s.(consecutiveFailures := 0, operations := s.operations + 1)
      case Failure => RecordFailure(cfg, s.(errors := s.errors + 1), a.end)
      case TimedOut => RecordFailure(cfg, s.(timeouts := s.timeouts + 1), a.end)
  }

  function After(cfg: Config, trace: seq<Attempt>): State {
    if trace == [] then INITIAL else Step(cfg, After(cfg, trace[..|trace| - 1]), trace[|trace| - 1])
  }

  /** The breaker of `RedisCacheBackend`. */
  class Breaker {
    const config: Config
    var operations: nat
    var errors: nat
    var timeouts: nat
    var circuitOpens: nat
    var consecutiveFailures: nat
    var circuitOpenUntilMs: nat
    ghost var trace: seq<Attempt>

    /** The breaker is where its calls so far have brought it. */
    ghost predicate Valid()
      reads this
    {
      Current() == After(config, trace)
    }

    ghost function Current(): State
      reads this
    {
      State(operations, errors, timeouts, circuitOpens, consecutiveFailures, circuitOpenUntilMs)
    }

    constructor (config: Config)
      ensures this.config == config && Valid() && trace == []
    {
      this.config := config;
      operations, errors, timeouts, circuitOpens, consecutiveFailures, circuitOpenUntilMs := 0, 0, 0, 0, 0, 0;
      trace := [];
    }

    /** `run`: checks the circuit, then counts how the operation ended. */
    method Run(a: Attempt) returns (r: Result)
      requires Valid()
      modifies this
      ensures Valid() && trace == old(trace) + [a]
      ensures Current() == Step(config, old(Current()), a)
      ensures r.Rejected? <==> HeldOpen(config, old(trace), a.start)
      ensures r == if !Admits(old(Current()), a.start) then Rejected else if a.outcome.Success? then Value else Error
    {
      RejectedIffHeldOpen(config, trace, a.start);
      r := Perform(a);
      assert (trace + [a])[..|trace|] == trace;
      trace := trace + [a];
    }

    method Perform(a: Attempt) returns (r: Result)
      modifies this`operations, this`errors, this`timeouts, this`circuitOpens, this`consecutiveFailures,
        this`circuitOpenUntilMs
      ensures Current() == Step(config, old(Current()), a)
      ensures r == if !Admits(old(Current()), a.start) then Rejected else if a.outcome.Success? then Value else Error
    {
      if circuitOpenUntilMs > a.start {
        return Rejected;
      }
      match a.outcome {
        case Success =>
          consecutiveFailures := 0;
          operations := operations + 1;
          r := Value;
        case Failure =>
          errors := errors + 1;
          CountFailure(a.end);
          r := Error;
        case TimedOut =>
          timeouts := timeouts + 1;
          CountFailure(a.end);
          r := Error;
      }
    }

    /** `record_failure` */
    method CountFailure(now: nat)
      modifies this`consecutiveFailures, this`circuitOpenUntilMs, this`circuitOpens
      ensures Current() == RecordFailure(config, old(Current()), now)
    {
      consecutiveFailures := consecutiveFailures + 1;
      if consecutiveFailures >= config.Threshold() {
        circuitOpenUntilMs := SaturatingAdd(now, config.cooldownMs);
        circuitOpens := circuitOpens + 1;
        consecutiveFailures := 0;
      }
    }
  }

  // --------------------------------------------------------------- accounting

  /** Failures that a later success wiped out before they could open the circuit. */
  function Forgiven(cfg: Config, trace: seq<Attempt>): nat {
    if trace == [] then 0 else
      var before := After(cfg, trace[..|trace| - 1]);
      var a := trace[|trace| - 1];
      Forgiven(cfg, trace[..|trace| - 1])
      + (if Admits(before, a.start) && a.outcome.Success? then before.consecutiveFailures else 0)
  }

  /** Operations that reached the server. */
  function Issued(cfg: Config, trace: seq<Attempt>): nat {
    if trace == [] then 0 else
      Issued(cfg, trace[..|trace| - 1])
      + (if Admits(After(cfg, trace[..|trace| - 1]), trace[|trace| - 1].start) then 1 else 0)
  }

  /**
   * Every failure is in exactly one place: spent on opening the circuit, still counting, or forgiven. The
   * counter stays below the threshold, so the source's `u32` never wraps.
   */
  lemma {:induction false} Accounting(cfg: Config, trace: seq<Attempt>)
    ensures var s := After(cfg, trace);
            && s.consecutiveFailures < cfg.Threshold()
            && s.errors + s.timeouts
               == cfg.Threshold() * s.circuitOpens + s.consecutiveFailures + Forgiven(cfg, trace)
            && Issued(cfg, trace) == s.operations + s.errors + s.timeouts
  {
    if trace != [] {
      Accounting(cfg, trace[..|trace| - 1]);
      var before := After(cfg, trace[..|trace| - 1]);
      assert cfg.Threshold() * (before.circuitOpens + 1) == cfg.Threshold() * before.circuitOpens + cfg.Threshold();
    }
  }

  // --------------------------------------------------------------- time bound

  /** The clock never goes back, within a call or between calls. */
  ghost predicate Monotone(trace: seq<Attempt>) {
    && (forall i | 0 <= i < |trace| :: trace[i].start <= trace[i].end)
    && (forall i, j | 0 <= i < j < |trace| :: trace[i].end <= trace[j].start)
  }

  ghost predicate AllFail(trace: seq<Attempt>) {
    forall i | 0 <= i < |trace| :: !trace[i].outcome.Success?
  }

  /** Completed cool-downs that must lie behind an issued operation in state `s`. */
  function CooldownsBehind(s: State): nat {
    if s.consecutiveFailures > 0 || s.circuitOpens == 0 then s.circuitOpens else s.circuitOpens - 1
  }

  /** `k` cool-downs, one after another. */
  function Elapsed(cfg: Config, k: nat): nat {
    if k == 0 then 0 else Elapsed(cfg, k - 1) + cfg.cooldownMs
  }

  /** After k openings the circuit stays closed to traffic until k cool-downs have passed. */
  ghost predicate Spaced(cfg: Config, s: State, origin: nat, horizon: nat) {
    && (s.circuitOpens > 0 ==> s.openUntil >= origin + Elapsed(cfg, s.circuitOpens) || s.openUntil == U64_MAX)
    && Elapsed(cfg, CooldownsBehind(s)) <= horizon
  }

  lemma StepKeepsSpaced(cfg: Config, s: State, a: Attempt, origin: nat, horizon: nat)
    requires Spaced(cfg, s, origin, horizon)
    requires !a.outcome.Success? && origin <= a.start <= a.end && a.start <= origin + horizon < U64_MAX
    ensures Spaced(cfg, Step(cfg, s, a), origin, horizon)
  {
  }

  lemma {:induction false} OpensAreSpaced(cfg: Config, trace: seq<Attempt>, origin: nat, horizon: nat)
    requires Monotone(trace) && AllFail(trace)
    requires forall i | 0 <= i < |trace| :: origin <= trace[i].start <= origin + horizon
    requires origin + horizon < U64_MAX
    ensures Spaced(cfg, After(cfg, trace), origin, horizon)
  {
    if trace != [] {
      OpensAreSpaced(cfg, trace[..|trace| - 1], origin, horizon);
      StepKeepsSpaced(cfg, After(cfg, trace[..|trace| - 1]), trace[|trace| - 1], origin, horizon);
    }
  }

  lemma {:induction false} OnlyFailures(cfg: Config, trace: seq<Attempt>)
    requires AllFail(trace)
    ensures After(cfg, trace).operations == 0 && Forgiven(cfg, trace) == 0
  {
    if trace != [] {
      assert !trace[|trace| - 1].outcome.Success?;
      OnlyFailures(cfg, trace[..|trace| - 1]);
    }
  }

  lemma {:induction false} ElapsedIsProduct(cfg: Config, k: nat)
    ensures Elapsed(cfg, k) == cfg.cooldownMs * k
  {
    if k > 0 {
      ElapsedIsProduct(cfg, k - 1);
      assert cfg.cooldownMs * k == cfg.cooldownMs * (k - 1) + cfg.cooldownMs;
    }
  }

  lemma AboveQuotient(d: nat, k: nat, n: nat)
    requires d > 0 && k > n / d
    ensures d * k > n
  {
    MultiplyMonotone(d, n / d + 1, k);
    assert d * (n / d + 1) == d * (n / d) + d;
  }

  lemma MultiplyMonotone(t: nat, a: nat, b: nat)
    requires a <= b
    ensures t * a <= t * b
  {
  }

  /**
   * Against a server that always fails, the operations issued in the first `horizon` milliseconds are at
   * most threshold * (horizon / cooldown + 1).
   */
  lemma FailingServerIsSpared(cfg: Config, trace: seq<Attempt>, origin: nat, horizon: nat)
    requires cfg.cooldownMs > 0
    requires Monotone(trace) && AllFail(trace)
    requires forall i | 0 <= i < |trace| :: origin <= trace[i].start <= origin + horizon
    requires origin + horizon < U64_MAX
    ensures Issued(cfg, trace) <= cfg.Threshold() * (horizon / cfg.cooldownMs + 1)
  {
    OpensAreSpaced(cfg, trace, origin, horizon);
    Accounting(cfg, trace);
    OnlyFailures(cfg, trace);
    var s := After(cfg, trace);
    IssuedInGroups(cfg.Threshold(), s.circuitOpens, s.consecutiveFailures, CooldownsBehind(s));
    GroupsFit(cfg, CooldownsBehind(s), horizon);
  }

  lemma GroupsFit(cfg: Config, groups: nat, horizon: nat)
    requires cfg.cooldownMs > 0 && Elapsed(cfg, groups) <= horizon
    ensures cfg.Threshold() * (groups + 1) <= cfg.Threshold() * (horizon / cfg.cooldownMs + 1)
  {
    ElapsedIsProduct(cfg, groups);
    if groups > horizon / cfg.cooldownMs {
      AboveQuotient(cfg.cooldownMs, groups, horizon);
      assert false;
    }
    MultiplyMonotone(cfg.Threshold(), groups + 1, horizon / cfg.cooldownMs + 1);
  }

  lemma IssuedInGroups(t: nat, opens: nat, failures: nat, groups: nat)
    requires failures < t
    requires groups == if failures > 0 || opens == 0 then opens else opens - 1
    ensures t * opens + failures <= t * (groups + 1)
  {
    assert t * (groups + 1) == t * groups + t;
  }

  // ------------------------------------------------------------- open and closed

  /** Attempt `i` reaches the server. */
  ghost predicate Admitted(cfg: Config, trace: seq<Attempt>, i: nat)
    requires i < |trace|
  {
    Admits(After(cfg, trace[..i]), trace[i].start)
  }

  /** Attempt `i` opens the circuit: the counter of openings goes up. */
  ghost predicate OpensAt(cfg: Config, trace: seq<Attempt>, i: nat)
    requires i < |trace|
  {
    After(cfg, trace[..i]).circuitOpens < After(cfg, trace[..i + 1]).circuitOpens
  }

  /** Attempt `i` neither ends a run of failures nor starts a new count: it failed and did not open, or was rejected. */
  ghost predicate RunsOn(cfg: Config, trace: seq<Attempt>, i: nat)
    requires i < |trace|
  {
    Admitted(cfg, trace, i) ==> !trace[i].outcome.Success? && !OpensAt(cfg, trace, i)
  }

  /** The failures before attempt `i`, since the last success or opening. */
  ghost function FailuresBefore(cfg: Config, trace: seq<Attempt>, i: nat): set<nat>
    requires i <= |trace|
  {
    set k | 0 <= k < i && Admitted(cfg, trace, k) && forall m | k <= m < i :: RunsOn(cfg, trace, m)
  }

  /**
   * The circuit is open to a call that starts at `start`: less than a cool-down has passed since the last
   * failure that opened it ended. A deadline past the clock's range is the end of that range.
   */
  ghost predicate HeldOpen(cfg: Config, trace: seq<Attempt>, start: nat) {
    exists j | 0 <= j < |trace| ::
      OpenedLast(cfg, trace, j) && start < trace[j].end + cfg.cooldownMs && start < U64_MAX
  }

  ghost predicate OpenedLast(cfg: Config, trace: seq<Attempt>, j: nat)
    requires j < |trace|
  {
    OpensAt(cfg, trace, j) && forall k | j < k < |trace| :: !OpensAt(cfg, trace, k)
  }

  lemma OneStepMore(cfg: Config, trace: seq<Attempt>, i: nat)
    requires i < |trace|
    ensures After(cfg, trace[..i + 1]) == Step(cfg, After(cfg, trace[..i]), trace[i])
  {
    assert trace[..i + 1][..i] == trace[..i];
  }

  /** The counter is the number of failures since the last success or opening. */
  lemma {:induction false} CounterCountsFailures(cfg: Config, trace: seq<Attempt>, i: nat)
    requires i <= |trace|
    ensures After(cfg, trace[..i]).consecutiveFailures == |FailuresBefore(cfg, trace, i)|
  {
    if i > 0 {
      CounterCountsFailures(cfg, trace, i - 1);
      OneStepMore(cfg, trace, i - 1);
      OneAttemptMore(cfg, trace, i - 1);
    }
  }

  lemma OneAttemptMore(cfg: Config, trace: seq<Attempt>, i: nat)
    requires i < |trace|
    ensures FailuresBefore(cfg, trace, i + 1) ==
            if !RunsOn(cfg, trace, i) then {}
            else if Admitted(cfg, trace, i) then FailuresBefore(cfg, trace, i) + {i}
            else FailuresBefore(cfg, trace, i)
  {
    assert RunsOn(cfg, trace, i) ==> FailuresBefore(cfg, trace, i) <= FailuresBefore(cfg, trace, i + 1);
  }

  /** The admitted attempts before `n` that ended so. */
  ghost function EndedSo(cfg: Config, trace: seq<Attempt>, n: nat, outcome: Outcome): set<nat>
    requires n <= |trace|
  {
    set i | 0 <= i < n && Admitted(cfg, trace, i) && trace[i].outcome == outcome
  }

  lemma OneEndedMore(cfg: Config, trace: seq<Attempt>, n: nat, outcome: Outcome)
    requires n < |trace|
    ensures |EndedSo(cfg, trace, n + 1, outcome)| ==
            |EndedSo(cfg, trace, n, outcome)| + if Admitted(cfg, trace, n) && trace[n].outcome == outcome then 1 else 0
  {
    assert EndedSo(cfg, trace, n + 1, outcome) == EndedSo(cfg, trace, n, outcome) +
      if Admitted(cfg, trace, n) && trace[n].outcome == outcome then {n} else {};
  }

  lemma OneMetricMore(cfg: Config, trace: seq<Attempt>, n: nat)
    requires n < |trace|
    ensures var s, s', admitted := After(cfg, trace[..n]), After(cfg, trace[..n + 1]), Admitted(cfg, trace, n);
            && s'.operations == s.operations + (if admitted && trace[n].outcome == Success then 1 else 0)
            && s'.errors == s.errors + (if admitted && trace[n].outcome == Failure then 1 else 0)
            && s'.timeouts == s.timeouts + (if admitted && trace[n].outcome == TimedOut then 1 else 0)
  {
    OneStepMore(cfg, trace, n);
  }

  /** Each metric counts the admitted calls that ended its way. */
  lemma {:induction false} MetricsCountOutcomes(cfg: Config, trace: seq<Attempt>, n: nat)
    requires n <= |trace|
    ensures var s := After(cfg, trace[..n]);
            && s.operations == |EndedSo(cfg, trace, n, Success)|
            && s.errors == |EndedSo(cfg, trace, n, Failure)|
            && s.timeouts == |EndedSo(cfg, trace, n, TimedOut)|
  {
    if n > 0 {
      MetricsCountOutcomes(cfg, trace, n - 1);
      OneMetricMore(cfg, trace, n - 1);
      OneEndedMore(cfg, trace, n - 1, Success);
      OneEndedMore(cfg, trace, n - 1, Failure);
      OneEndedMore(cfg, trace, n - 1, TimedOut);
    }
  }

  /**
   * Which call opens the circuit: one that is admitted and fails, when as many failures as the threshold
   * demands, itself included, have come since the last success or opening. A threshold of zero counts as one.
   */
  lemma OpensAtThreshold(cfg: Config, trace: seq<Attempt>, i: nat)
    requires i < |trace|
    ensures OpensAt(cfg, trace, i) <==>
            && Admitted(cfg, trace, i) && !trace[i].outcome.Success?
            && |FailuresBefore(cfg, trace, i)| + 1 >= Max(1, cfg.failureThreshold)
  {
    CounterCountsFailures(cfg, trace, i);
    OneStepMore(cfg, trace, i);
  }

  /** A call is rejected if and only if the last opening is less than a cool-down ago. */
  lemma {:induction false} RejectedIffHeldOpen(cfg: Config, trace: seq<Attempt>, start: nat)
    ensures !Admits(After(cfg, trace), start) <==> HeldOpen(cfg, trace, start)
  {
    if trace != [] {
      var n := |trace| - 1;
      OneStepMore(cfg, trace, n);
      assert trace[..n + 1] == trace;
      if OpensAt(cfg, trace, n) {
        assert OpenedLast(cfg, trace, n);
      } else {
        RejectedIffHeldOpen(cfg, trace[..n], start);
        SameOpenings(cfg, trace);
      }
    }
  }

  lemma OpensAtInPrefix(cfg: Config, trace: seq<Attempt>, j: nat)
    requires j + 1 < |trace|
    ensures OpensAt(cfg, trace[..|trace| - 1], j) == OpensAt(cfg, trace, j)
  {
    assert trace[..|trace| - 1][..j] == trace[..j] && trace[..|trace| - 1][..j + 1] == trace[..j + 1];
  }

  lemma SameOpenings(cfg: Config, trace: seq<Attempt>)
    requires trace != [] && !OpensAt(cfg, trace, |trace| - 1)
    ensures forall j | 0 <= j < |trace| - 1 :: OpenedLast(cfg, trace[..|trace| - 1], j) == OpenedLast(cfg, trace, j)
  {
    var shorter := trace[..|trace| - 1];
    forall j | 0 <= j < |shorter| ensures OpensAt(cfg, shorter, j) == OpensAt(cfg, trace, j) {
      OpensAtInPrefix(cfg, trace, j);
    }
    forall j | 0 <= j < |shorter| && OpenedLast(cfg, shorter, j) ensures OpenedLast(cfg, trace, j) {
      assert forall k | j < k < |shorter| :: !OpensAt(cfg, shorter, k);
    }
  }

  /** The circuit closes again: a cool-down after every earlier call has ended, the next one is let through. */
  lemma CooledDownIsAdmitted(cfg: Config, trace: seq<Attempt>, start: nat)
    requires forall j | 0 <= j < |trace| :: trace[j].end + cfg.cooldownMs <= start
    ensures Admits(After(cfg, trace), start)
  {
    RejectedIffHeldOpen(cfg, trace, start);
  }

  // ------------------------------------------------------------------ the object

  /** The breaker's own counters balance at every moment of its life. */
  lemma BreakerBalances(b: Breaker)
    requires b.Valid()
    ensures b.consecutiveFailures < b.config.Threshold()
    ensures b.errors + b.timeouts
         == b.config.Threshold() * b.circuitOpens + b.consecutiveFailures + Forgiven(b.config, b.trace)
  {
    Accounting(b.config, b.trace);
  }

  /** A breaker before a server that always fails has let through no more than the bound. */
  lemma BreakerSparesServer(b: Breaker, origin: nat, horizon: nat)
    requires b.Valid() && b.config.cooldownMs > 0 && Monotone(b.trace) && AllFail(b.trace)
    requires forall i | 0 <= i < |b.trace| :: origin <= b.trace[i].start <= origin + horizon
    requires origin + horizon < U64_MAX
    ensures b.operations + b.errors + b.timeouts <= b.config.Threshold() * (horizon / b.config.cooldownMs + 1)
  {
    FailingServerIsSpared(b.config, b.trace, origin, horizon);
    Accounting(b.config, b.trace);
  }
}
