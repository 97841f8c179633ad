/**
 * The `before` and `after` hooks around a statement. The outside world (session cache, backend, elections,
 * waits, encoders, clock) answers anything; `calls` records what it was asked and what it said.
 */
module Hooks {
  import opened Common
  import opened Envelopes

  datatype FailureMode = FailOpen | FailClosed
  datatype TransactionMode = Defer | Bypass

  datatype Policy = Policy(
    failureMode: FailureMode, transactionMode: TransactionMode, blocking: bool, cacheNull: bool, ttl: nat,
    nullTtl: Option<nat>, maxValueSize: nat)

  /** Database values; only emptiness matters here. */
  datatype Value = Null | Array(length: nat) | Other(text: string)

  /** The payload of an envelope is empty when its bytes are no value. */
  datatype Reply = Failed | Absent | Undecodable | Decoded(envelope: Envelope<Option<Value>>)

  datatype Call =
    | SessionAsked(found: Option<Value>)
    | GenerationAsked(answer: Option<nat>)
    | SessionPut(value: Value)
    | SessionCleared
    | EntryAsked(generation: nat, reply: Reply, clock: int)
    | Elected(leader: bool)
    | Waited
    | Completed(success: bool)
    | PutAsked(ttl: nat, ok: bool)
    | BumpAsked(ok: bool)

  datatype Outcome = Next | Return(value: Value) | Err

  datatype Found = Hit(value: Value) | Miss | Error

  const MAX_SINGLEFLIGHT_ATTEMPTS: nat := 3

  predicate IsEmpty(value: Value) {
    value.Null? || (value.Array? && value.length == 0)
  }

  // ------------------------------------------------------------- reading the record

  /** The value that a call delivered, if it is a hit. */
  function Delivered(c: Call): Option<Value> {
    match c
    case SessionAsked(found) => found
    case EntryAsked(g, Decoded(envelope), clock) => if IsFresh(envelope, g, clock) then envelope.payload else None
    case _ => None
  }

  /** An entry that is absent, does not decode, or is not fresh. A fresh payload that is no value is no miss. */
  predicate Misses(c: Call) {
    match c
    case EntryAsked(_, Absent, _) => true
    case EntryAsked(_, Undecodable, _) => true
    case EntryAsked(g, Decoded(envelope), clock) => !IsFresh(envelope, g, clock)
    case _ => false
  }

  /** Failures that are counted: in FailClosed mode a failed generation is not. */
  predicate CountsError(mode: FailureMode, c: Call) {
    match c
    case GenerationAsked(answer) => answer.None? && mode.FailOpen?
    case EntryAsked(_, reply, _) => reply.Failed?
    case PutAsked(_, ok) => !ok
    case BumpAsked(ok) => !ok
    case _ => false
  }

  datatype Tally = Tally(hits: nat, misses: nat, errors: nat, invalidations: nat)

  function CountCall(mode: FailureMode, t: Tally, c: Call): Tally {
    Tally(t.hits + (if Delivered(c).Some? then 1 else 0),
          t.misses + (if Misses(c) then 1 else 0),
          t.errors + (if CountsError(mode, c) then 1 else 0),
          t.invalidations + (if c.BumpAsked? && c.ok then 1 else 0))
  }

  function Tallied(mode: FailureMode, calls: seq<Call>): Tally {
    if calls == [] then Tally(0, 0, 0, 0)
    else CountCall(mode, Tallied(mode, calls[..|calls| - 1]), calls[|calls| - 1])
  }

  function Elections(calls: seq<Call>): nat {
    if calls == [] then 0 else Elections(calls[..|calls| - 1]) + if calls[|calls| - 1].Elected? then 1 else 0
  }

  function Waits(calls: seq<Call>): nat {
    if calls == [] then 0 else Waits(calls[..|calls| - 1]) + if calls[|calls| - 1].Waited? then 1 else 0
  }

  predicate EntryFailed(c: Call) {
    c.EntryAsked? && c.reply.Failed?
  }

  /** The record from `from` on ends with an entry that could not be read. */
  predicate EndsFailed(calls: seq<Call>, from: nat) {
    from < |calls| && EntryFailed(calls[|calls| - 1])
  }

  /** The calls of one hook end in a refusal: the only one was a failed generation, or the last entry failed. */
  predicate Refused(calls: seq<Call>, from: nat) {
    || EndsFailed(calls, from)
    || (from + 1 == |calls| && calls[from].GenerationAsked? && calls[from].answer.None?)
  }

  /** The query succeeded, with a result that the policy keeps. */
  predicate Keeps(policy: Policy, result: Option<Value>) {
    result.Some? && (policy.cacheNull || !IsEmpty(result.value))
  }

  /** Empty results may have a shorter life. */
  function Ttl(policy: Policy, value: Value): nat {
    if IsEmpty(value) && policy.nullTtl.Some? then policy.nullTtl.value else policy.ttl
  }

  /** The value encodes, is not too large, and its envelope encodes: the backend is asked to put it. */
  predicate Storable(policy: Policy, size: Option<nat>, envelopeEncodes: bool) {
    size.Some? && size.value <= policy.maxValueSize && envelopeEncodes
  }

  /** The value or its envelope does not encode, or the put failed in FailClosed mode. Too large is no failure. */
  predicate StoreFails(policy: Policy, size: Option<nat>, envelopeEncodes: bool, putFails: bool) {
    if size.None? then true
    else if size.value > policy.maxValueSize then false
    else if !envelopeEncodes then true
    else policy.failureMode.FailClosed? && putFails
  }

  /**
   * Null results, case by case. An error is never kept; a null or an empty array only if the policy caches
   * null, and then for the null TTL if there is one; anything else always, for the ordinary TTL.
   */
  lemma NullResults(policy: Policy, length: nat, text: string)
    ensures !Keeps(policy, None)
    ensures Keeps(policy, Some(Null)) == Keeps(policy, Some(Array(0))) == policy.cacheNull
    ensures Keeps(policy, Some(Array(length + 1))) && Keeps(policy, Some(Other(text)))
    ensures policy.nullTtl.Some? ==> Ttl(policy, Null) == Ttl(policy, Array(0)) == policy.nullTtl.value
    ensures policy.nullTtl.None? ==> Ttl(policy, Null) == Ttl(policy, Array(0)) == policy.ttl
    ensures Ttl(policy, Array(length + 1)) == Ttl(policy, Other(text)) == policy.ttl
  {
  }

  /**
   * What a failing store costs, case by case: a value that does not encode is always an error, one that is too
   * large never is and is not put, and a put that fails is an error in FailClosed mode only.
   */
  lemma StoringCases(policy: Policy, size: nat, envelopeEncodes: bool, putFails: bool)
    ensures !Storable(policy, None, envelopeEncodes) && StoreFails(policy, None, envelopeEncodes, putFails)
    ensures size > policy.maxValueSize ==>
              && !Storable(policy, Some(size), envelopeEncodes)
              && !StoreFails(policy, Some(size), envelopeEncodes, putFails)
    ensures size <= policy.maxValueSize ==>
              && !Storable(policy, Some(size), false) && StoreFails(policy, Some(size), false, putFails)
              && Storable(policy, Some(size), true) && !StoreFails(policy, Some(size), true, false)
              && StoreFails(policy, Some(size), true, true) == policy.failureMode.FailClosed?
  {
  }

  /**
   * What each call adds to the counters. A session answer and a fresh entry that holds a value are hits; a
   * missing, undecodable, expired or foreign entry is a miss; a fresh payload that is no value is neither.
   */
  lemma WhatIsCounted(mode: FailureMode, t: Tally, c: Call)
    ensures CountCall(mode, t, c) ==
            match c
            case SessionAsked(Some(_)) => t.(hits := t.hits + 1)
            case EntryAsked(_, Failed, _) => t.(errors := t.errors + 1)
            case EntryAsked(g, Decoded(envelope), clock) =>
              if envelope.version != 1 || envelope.generation != g || envelope.expiresAt <= NowMs(clock)
              then t.(misses := t.misses + 1)
              else if envelope.payload.Some? then t.(hits := t.hits + 1)
              else t
            case EntryAsked(_, _, _) => t.(misses := t.misses + 1)
            case GenerationAsked(None) => if mode.FailOpen? then t.(errors := t.errors + 1) else t
            case PutAsked(_, false) => t.(errors := t.errors + 1)
            case BumpAsked(ok) =>
              if ok then t.(invalidations := t.invalidations + 1) else t.(errors := t.errors + 1)
            case _ => t
  {
  }

  /** The call at `from`, if there is one, is a put that failed. */
  predicate PutFailed(calls: seq<Call>, from: nat) {
    from < |calls| && calls[from].PutAsked? && !calls[from].ok
  }

  predicate Delivers(c: Call, value: Value) {
    Delivered(c).Some? && Delivered(c).value == value
  }

  /**
   * The record from `from` on ends with the delivery of `value`: by the session cache, or by a fresh entry
   * that is then put into the session cache.
   */
  predicate EndsWith(calls: seq<Call>, from: nat, value: Value) {
    && from < |calls|
    && var n, last := |calls| - 1, calls[|calls| - 1];
       if last.SessionPut?
       then last.value == value && from < n && calls[n - 1].EntryAsked? && Delivers(calls[n - 1], value)
       else last.SessionAsked? && Delivers(last, value)
  }

  /** What a lookup makes of its calls. */
  predicate IsFound(policy: Policy, calls: seq<Call>, from: nat, found: Found) {
    match found
    case Hit(value) => EndsWith(calls, from, value)
    case Error => policy.failureMode.FailClosed? && EndsFailed(calls, from)
    case Miss =>
      && from < |calls| && calls[|calls| - 1].EntryAsked? && Delivered(calls[|calls| - 1]).None?
      && !(policy.failureMode.FailClosed? && EndsFailed(calls, from))
  }

  /** Where a short-circuited answer comes from: the transaction's buffer, or the calls of the hook. */
  predicate ComesFrom(
    inTransaction: bool, policy: Policy, buffered: Option<Value>, calls: seq<Call>, from: nat, value: Value)
  {
    if from < |calls| then EndsWith(calls, from, value)
    else inTransaction && policy.transactionMode.Defer? && buffered.Some? && buffered.value == value
  }

  /** What `after` asks first, from `from` on: the generation, then the wake-up, then the session cache. */
  predicate Follows(cacheable: bool, result: Option<Value>, calls: seq<Call>, from: nat)
    requires from <= |calls|
  {
    var n := |calls| - from;
    if !cacheable then n == 0
    else
      && n > 0 && calls[from].GenerationAsked?
      && (calls[from].answer.None? ==> n == 1)
      && (calls[from].answer.Some? ==> n > 1 && calls[from + 1].Completed? && calls[from + 1].success == result.Some?)
      && (calls[from].answer.Some? && result.None? ==> n == 2)
      && (calls[from].answer.Some? && result.Some? ==>
            n > 2 && calls[from + 2].SessionPut? && calls[from + 2].value == result.value)
  }

  /** At most three elections and two waits, and none unless the policy blocks. */
  predicate ElectsWithin(policy: Policy, before: seq<Call>, after: seq<Call>) {
    && Elections(before) <= Elections(after) <= Elections(before) + (if policy.blocking then 3 else 0)
    && Waits(before) <= Waits(after) <= Waits(before) + (if policy.blocking then 2 else 0)
  }

  // ---------------------------------------------------------- the script of `before`

  /** The elections lost among the calls from `from` to before `to`. */
  function LostElections(calls: seq<Call>, from: nat, to: nat): nat
    requires to <= |calls|
  {
    if to <= from then 0
    else LostElections(calls, from, to - 1) + if calls[to - 1].Elected? && !calls[to - 1].leader then 1 else 0
  }

  /** An entry that could not be read, when that is an error. */
  predicate Fatal(policy: Policy, c: Call) {
    policy.failureMode.FailClosed? && EntryFailed(c)
  }

  /**
   * Call `i` of the hook leads to the next: a generation to the session cache, that to the entry of that
   * generation, a delivered entry back into the session cache, an entry that is not there to an election if
   * the policy blocks, the first two lost elections to a wait, and a wait to a generation.
   */
  predicate LeadsOn(policy: Policy, calls: seq<Call>, from: nat, i: nat)
    requires from <= i && i + 1 < |calls|
  {
    var next := calls[i + 1];
    match calls[i]
    case GenerationAsked(answer) => answer.Some? && next.SessionAsked?
    case SessionAsked(found) =>
      && found.None? && next.EntryAsked? && from < i && calls[i - 1].GenerationAsked?
      && calls[i - 1].answer.Some? && calls[i - 1].answer.value == next.generation
    case EntryAsked(_, _, _) =>
      if Delivered(calls[i]).Some? then next.SessionPut? && next.value == Delivered(calls[i]).value
      else !Fatal(policy, calls[i]) && policy.blocking && next.Elected?
    case Elected(leader) => !leader && LostElections(calls, from, i + 1) < 3 && next.Waited?
    case Waited => next.GenerationAsked?
    case _ => false
  }

  /**
   * The last call decides the outcome: a delivered value is returned; an entry that is not there goes on to
   * the database unless the policy blocks, and so do the winner of an election and the loser of three; only
   * the first generation and the last entry can be errors, and only in FailClosed mode.
   */
  predicate Decides(policy: Policy, calls: seq<Call>, from: nat, outcome: Outcome)
    requires from < |calls|
  {
    var n := |calls| - 1;
    match calls[n]
    case GenerationAsked(answer) =>
      answer.None? && if n == from && policy.failureMode.FailClosed? then outcome.Err? else outcome.Next?
    case SessionAsked(found) => found.Some? && outcome.Return? && outcome.value == found.value
    case EntryAsked(_, _, _) =>
      Delivered(calls[n]).None? && if Fatal(policy, calls[n]) then outcome.Err? else !policy.blocking && outcome.Next?
    case SessionPut(value) => outcome.Return? && outcome.value == value
    case Elected(leader) => (leader || LostElections(calls, from, n + 1) == 3) && outcome.Next?
    case _ => false
  }

  ghost predicate Unbroken(policy: Policy, calls: seq<Call>, from: nat) {
    forall i | from <= i < |calls| - 1 :: LeadsOn(policy, calls, from, i)
  }

  /** What the hook asks once it looks for a key, from the first call to the outcome. */
  ghost predicate Scripted(policy: Policy, calls: seq<Call>, from: nat, outcome: Outcome) {
    && from < |calls| && calls[from].GenerationAsked?
    && Unbroken(policy, calls, from) && Decides(policy, calls, from, outcome)
  }

  lemma {:induction false} LostSoFar(before: seq<Call>, after: seq<Call>, from: nat, to: nat)
    requires before <= after && to <= |before|
    ensures LostElections(before, from, to) == LostElections(after, from, to)
  {
    if to > from {
      LostSoFar(before, after, from, to - 1);
    }
  }

  lemma StaysUnbroken(policy: Policy, before: seq<Call>, after: seq<Call>, from: nat)
    requires before <= after && Unbroken(policy, before, from)
    requires forall i | from <= i < |after| - 1 && |before| <= i + 1 :: LeadsOn(policy, after, from, i)
    ensures Unbroken(policy, after, from)
  {
    forall i | from <= i < |after| - 1 ensures LeadsOn(policy, after, from, i) {
      if i + 1 < |before| {
        assert LeadsOn(policy, before, from, i);
        LostSoFar(before, after, from, i + 1);
      }
    }
  }

  /** One lookup: the session cache; if it has nothing, the entry; and if that is a hit, back into the session cache. */
  predicate LooksUp(calls: seq<Call>, from: nat, generation: nat) {
    && from < |calls| && calls[from].SessionAsked?
    && (calls[from].found.Some? ==> |calls| == from + 1)
    && (calls[from].found.None? ==>
          && from + 1 < |calls| && calls[from + 1].EntryAsked? && calls[from + 1].generation == generation
          && if Delivered(calls[from + 1]).None? then |calls| == from + 2
             else |calls| == from + 3 && calls[from + 2].SessionPut?
                  && calls[from + 2].value == Delivered(calls[from + 1]).value)
  }

  /** A lookup goes on from the generation it was given. */
  lemma LookupLeadsOn(policy: Policy, before: seq<Call>, after: seq<Call>, from: nat, generation: nat)
    requires from < |before| && before <= after && Unbroken(policy, before, from)
    requires before[|before| - 1].GenerationAsked? && before[|before| - 1].answer.Some?
    requires before[|before| - 1].answer.value == generation && LooksUp(after, |before|, generation)
    ensures Unbroken(policy, after, from)
  {
    StaysUnbroken(policy, before, after, from);
  }

  /** One call more. */
  lemma OneCallLeadsOn(policy: Policy, before: seq<Call>, after: seq<Call>, from: nat)
    requires from < |before| && before <= after && |after| == |before| + 1 && Unbroken(policy, before, from)
    requires LeadsOn(policy, after, from, |before| - 1)
    ensures Unbroken(policy, after, from)
  {
    StaysUnbroken(policy, before, after, from);
  }

  lemma {:induction false} NoneLost(calls: seq<Call>, from: nat, a: nat, b: nat)
    requires from <= a <= b <= |calls| && forall i | a <= i < b :: !calls[i].Elected?
    ensures LostElections(calls, from, b) == LostElections(calls, from, a)
  {
    if a < b {
      NoneLost(calls, from, a, b - 1);
    }
  }

  /** The last call was an entry that is not there, after `lost` lost elections: the next election comes. */
  ghost predicate Undecided(policy: Policy, calls: seq<Call>, from: nat, lost: nat) {
    && from < |calls| && Unbroken(policy, calls, from) && LostElections(calls, from, |calls|) == lost
    && var last := calls[|calls| - 1]; last.EntryAsked? && Delivered(last).None? && !Fatal(policy, last)
  }

  /** Going on to the database means that nothing was found on the way. */
  lemma NextFoundNothing(policy: Policy, calls: seq<Call>, from: nat)
    requires Scripted(policy, calls, from, Next)
    ensures forall i | from <= i < |calls| :: Delivered(calls[i]).None?
  {
    forall i | from <= i < |calls| ensures Delivered(calls[i]).None? {
      if i + 1 < |calls| {
        assert LeadsOn(policy, calls, from, i);
        if Delivered(calls[i]).Some? {
          assert i + 1 < |calls| - 1 ==> LeadsOn(policy, calls, from, i + 1);
        }
      }
    }
  }

  // -------------------------------------------------------------------- the hooks

  class RbatisCacheInterceptor {
    const policy: Policy
    var hits: nat
    var misses: nat
    var backendErrors: nat
    var invalidations: nat
    ghost var calls: seq<Call>

    /** The counters are what the record says. */
    ghost predicate Valid()
      reads this
    {
      var t := Tallied(policy.failureMode, calls);
      hits == t.hits && misses == t.misses && backendErrors == t.errors && invalidations == t.invalidations
    }

    constructor (policy: Policy)
      ensures Valid() && this.policy == policy && calls == []
    {
      this.policy := policy;
      hits, misses, backendErrors, invalidations, calls := 0, 0, 0, 0, [];
    }

    ghost method Log(c: Call)
      modifies this`calls
      ensures calls == old(calls) + [c]
      ensures Tallied(policy.failureMode, calls) ==
              CountCall(policy.failureMode, Tallied(policy.failureMode, old(calls)), c)
      ensures Elections(calls) == Elections(old(calls)) + if c.Elected? then 1 else 0
      ensures Waits(calls) == Waits(old(calls)) + if c.Waited? then 1 else 0
    {
      assert (calls + [c])[..|calls|] == calls;
      calls := calls + [c];
    }

    /** `resolve_key`: None stands for its error. */
    method ResolveKey() returns (generation: Option<nat>)
      requires Valid()
      modifies this
      ensures Valid() && calls == old(calls) + [GenerationAsked(generation)]
      ensures Elections(calls) == Elections(old(calls)) && Waits(calls) == Waits(old(calls))
    {
      generation := *;
      Log(GenerationAsked(generation));
      if generation.None? && policy.failureMode.FailOpen? {
        backendErrors := backendErrors + 1;
      }
    }

    /** The session cache takes a value. */
    method FillSession(value: Value)
      requires Valid()
      modifies this`calls
      ensures Valid() && |calls| == |old(calls)| + 1 && old(calls) <= calls
      ensures calls[|old(calls)|].SessionPut? && calls[|old(calls)|].value == value
      ensures Elections(calls) == Elections(old(calls)) && Waits(calls) == Waits(old(calls))
    {
      Log(SessionPut(value));
    }

    /** `complete_load`: the followers are woken. */
    method WakeFollowers(success: bool)
      requires Valid()
      modifies this`calls
      ensures Valid() && |calls| == |old(calls)| + 1 && old(calls) <= calls
      ensures calls[|old(calls)|].Completed? && calls[|old(calls)|].success == success
    {
      Log(Completed(success));
    }

    /** `lookup_value`: the session cache, then the backend; what the backend has goes into the session cache. */
    method LookupValue(generation: nat) returns (found: Found)
      requires Valid()
      modifies this
      ensures Valid() && |calls| > |old(calls)| && old(calls) <= calls
      ensures Elections(calls) == Elections(old(calls)) && Waits(calls) == Waits(old(calls))
      ensures IsFound(policy, calls, |old(calls)|, found) && LooksUp(calls, |old(calls)|, generation)
    {
      var session := LookupSession();
      if session.Some? {
        return Hit(session.value);
      }
      found := LookupEntry(generation);
      if found.Hit? {
        FillSession(found.value);
      }
    }

    method LookupSession() returns (session: Option<Value>)
      requires Valid()
      modifies this
      ensures Valid() && |calls| == |old(calls)| + 1 && old(calls) <= calls
      ensures calls[|old(calls)|].SessionAsked? && calls[|old(calls)|].found == session
      ensures Elections(calls) == Elections(old(calls)) && Waits(calls) == Waits(old(calls))
    {
      session := *;
      Log(SessionAsked(session));
      if session.Some? {
        hits := hits + 1;
      }
    }

    /** The backend's entry, judged by the clock. */
    method LookupEntry(generation: nat) returns (found: Found)
      requires Valid()
      modifies this
      ensures Valid() && |calls| == |old(calls)| + 1 && old(calls) <= calls
      ensures Elections(calls) == Elections(old(calls)) && Waits(calls) == Waits(old(calls))
      ensures calls[|old(calls)|].EntryAsked? && calls[|old(calls)|].generation == generation
      ensures match found
              case Hit(value) => Delivers(calls[|old(calls)|], value)
              case Error => policy.failureMode.FailClosed? && EntryFailed(calls[|old(calls)|])
              case Miss =>
                && Delivered(calls[|old(calls)|]).None?
                && !(policy.failureMode.FailClosed? && EntryFailed(calls[|old(calls)|]))
    {
      var reply: Reply := *;
      var clock: int := *;
      Log(EntryAsked(generation, reply, clock));
      if reply.Failed? {
        backendErrors := backendErrors + 1;
        return if policy.failureMode.FailOpen? then Miss else Error;
      }
      if !reply.Decoded? || !IsFresh(reply.envelope, generation, clock) {
        misses := misses + 1;
        return Miss;
      }
      if reply.envelope.payload.None? {
        return Miss;
      }
      hits := hits + 1;
      found := Hit(reply.envelope.payload.value);
    }

    /**
     * `before` on a query. `buffered` is what the transaction's buffer holds under the key at generation 0,
     * if there is one.
     */
    method Before(cacheable: bool, inTransaction: bool, buffered: Option<Value>) returns (outcome: Outcome)
      requires Valid()
      modifies this
      ensures Valid() && |calls| >= |old(calls)| && old(calls) <= calls
      ensures ElectsWithin(policy, old(calls), calls)
      ensures outcome.Err? <==> policy.failureMode.FailClosed? && Refused(calls, |old(calls)|)
      ensures outcome.Return? ==> ComesFrom(inTransaction, policy, buffered, calls, |old(calls)|, outcome.value)
      ensures !cacheable ==> outcome.Next? && calls == old(calls)
      ensures cacheable && inTransaction && policy.transactionMode.Bypass? ==> outcome.Next? && calls == old(calls)
      ensures cacheable && inTransaction && policy.transactionMode.Defer? && buffered.Some? ==>
                outcome.Return? && outcome.value == buffered.value && calls == old(calls)
      ensures cacheable && (inTransaction ==> policy.transactionMode.Defer? && buffered.None?) ==>
                Scripted(policy, calls, |old(calls)|, outcome)
      ensures outcome.Next? ==> forall i | |old(calls)| <= i < |calls| :: Delivered(calls[i]).None?
    {
      if !cacheable {
        return Next;
      }
      if inTransaction && policy.transactionMode.Defer? && buffered.Some? {
        return Return(buffered.value);
      }
      if inTransaction && policy.transactionMode.Bypass? {
        return Next;
      }
      outcome := AskAndLookup();
      if outcome.Next? {
        NextFoundNothing(policy, calls, |old(calls)|);
      }
    }

    /** ... when the cache may be asked: the generation, and what follows from it. */
    method AskAndLookup() returns (outcome: Outcome)
      requires Valid()
      modifies this
      ensures Valid() && |calls| > |old(calls)| && old(calls) <= calls
      ensures ElectsWithin(policy, old(calls), calls)
      ensures outcome.Err? <==> policy.failureMode.FailClosed? && Refused(calls, |old(calls)|)
      ensures outcome.Return? ==> EndsWith(calls, |old(calls)|, outcome.value)
      ensures Scripted(policy, calls, |old(calls)|, outcome)
    {
      var generation := ResolveKey();
      if generation.None? {
        return if policy.failureMode.FailOpen? then Next else Err;
      }
      outcome := LookupOrElect(generation.value);
    }

    /** ... once the key is known: look up, then up to three elections, each lost one followed by a wait. */
    method LookupOrElect(generation: nat) returns (outcome: Outcome)
      requires Valid() && calls != [] && calls[|calls| - 1].GenerationAsked?
      requires calls[|calls| - 1].answer.Some? && calls[|calls| - 1].answer.value == generation
      modifies this
      ensures Valid() && |calls| > |old(calls)| && old(calls) <= calls
      ensures ElectsWithin(policy, old(calls), calls)
      ensures outcome.Err? <==> policy.failureMode.FailClosed? && EndsFailed(calls, |old(calls)|)
      ensures outcome.Return? ==> EndsWith(calls, |old(calls)|, outcome.value)
      ensures Scripted(policy, calls, |old(calls)| - 1, outcome)
    {
      ghost var from := |calls| - 1;
      var found := LookupValue(generation);
      LookupLeadsOn(policy, old(calls), calls, from, generation);
      match found {
        case Hit(value) => return Return(value);
        case Error => return Err;
        case Miss =>
      }
      if !policy.blocking {
        return Next;
      }
      NoneLost(calls, from, from, |calls|);
      outcome := Elect(from);
    }

    /** The elections after a miss. */
    method Elect(ghost from: nat) returns (outcome: Outcome)
      requires Valid() && policy.blocking && Undecided(policy, calls, from, 0)
      modifies this
      ensures Valid() && |calls| > |old(calls)| && old(calls) <= calls
      ensures ElectsWithin(policy, old(calls), calls)
      ensures outcome.Err? <==> policy.failureMode.FailClosed? && EndsFailed(calls, |old(calls)|)
      ensures outcome.Return? ==> EndsWith(calls, |old(calls)|, outcome.value)
      ensures Unbroken(policy, calls, from) && Decides(policy, calls, from, outcome)
    {
      var attempts := 0;
      while true
        invariant attempts < MAX_SINGLEFLIGHT_ATTEMPTS
        invariant Valid() && |calls| >= |old(calls)| && old(calls) <= calls
        invariant Elections(calls) == Elections(old(calls)) + attempts && Waits(calls) == Waits(old(calls)) + attempts
        invariant Undecided(policy, calls, from, attempts)
        decreases MAX_SINGLEFLIGHT_ATTEMPTS - attempts
      {
        var leader := TryBeginLoad(from, attempts);
        if leader {
          return Next;
        }
        attempts := attempts + 1;
        if attempts >= MAX_SINGLEFLIGHT_ATTEMPTS {
          return Next;
        }
        var again := WaitAndLookup(from, attempts);
        match again {
          case Some(decided) => return decided;
          case None =>
        }
      }
    }

    /** `try_begin_load` */
    method TryBeginLoad(ghost from: nat, ghost lost: nat) returns (leader: bool)
      requires Valid() && policy.blocking && Undecided(policy, calls, from, lost)
      modifies this`calls
      ensures Valid() && |calls| == |old(calls)| + 1 && old(calls) <= calls
      ensures Elections(calls) == Elections(old(calls)) + 1 && Waits(calls) == Waits(old(calls))
      ensures calls[|old(calls)|].Elected? && calls[|old(calls)|].leader == leader
      ensures Unbroken(policy, calls, from)
      ensures LostElections(calls, from, |calls|) == lost + if leader then 0 else 1
    {
      leader := *;
      Log(Elected(leader));
      OneCallLeadsOn(policy, old(calls), calls, from);
      LostSoFar(old(calls), calls, from, |old(calls)|);
    }

    /** A follower waits and looks again; None sends it to the next election. */
    method WaitAndLookup(ghost from: nat, ghost lost: nat) returns (decided: Option<Outcome>)
      requires Valid() && from < |calls| && Unbroken(policy, calls, from)
      requires calls[|calls| - 1].Elected? && !calls[|calls| - 1].leader
      requires LostElections(calls, from, |calls|) == lost < 3
      modifies this
      ensures Valid() && |calls| > |old(calls)| && old(calls) <= calls
      ensures Elections(calls) == Elections(old(calls)) && Waits(calls) == Waits(old(calls)) + 1
      ensures decided.Some? && decided.value.Err? <==>
                policy.failureMode.FailClosed? && EndsFailed(calls, |old(calls)|)
      ensures decided.Some? && decided.value.Return? ==> EndsWith(calls, |old(calls)|, decided.value.value)
      ensures match decided
              case Some(outcome) => Unbroken(policy, calls, from) && Decides(policy, calls, from, outcome)
              case None => Undecided(policy, calls, from, lost)
    {
      Wait(from);
      ghost var waited := calls;
      var generation := ResolveKey();
      OneCallLeadsOn(policy, waited, calls, from);
      if generation.None? {
        return Some(Next);
      }
      ghost var asked := calls;
      var found := LookupValue(generation.value);
      LookupLeadsOn(policy, asked, calls, from, generation.value);
      match found
      case Hit(value) => decided := Some(Return(value));
      case Error => decided := Some(Err);
      case Miss =>
        LostSoFar(old(calls), calls, from, |old(calls)|);
        NoneLost(calls, from, |old(calls)|, |calls|);
        decided := None;
    }

    /** The leader has loaded, or the time is up. */
    method Wait(ghost from: nat)
      requires Valid() && from < |calls| && Unbroken(policy, calls, from)
      requires calls[|calls| - 1].Elected? && !calls[|calls| - 1].leader && LostElections(calls, from, |calls|) < 3
      modifies this`calls
      ensures Valid() && |calls| == |old(calls)| + 1 && old(calls) <= calls && calls[|old(calls)|].Waited?
      ensures Elections(calls) == Elections(old(calls)) && Waits(calls) == Waits(old(calls)) + 1
      ensures Unbroken(policy, calls, from)
    {
      Log(Waited);
      LostSoFar(old(calls), calls, from, |old(calls)|);
      OneCallLeadsOn(policy, old(calls), calls, from);
    }

    /** `store_value`: `size` is the length of the encoded value, if it encodes. */
    method StoreValue(size: Option<nat>, envelopeEncodes: bool, ttl: nat) returns (ok: bool)
      requires Valid()
      modifies this
      ensures Valid() && |old(calls)| <= |calls| <= |old(calls)| + 1 && old(calls) <= calls
      ensures |calls| > |old(calls)| <==> Storable(policy, size, envelopeEncodes)
      ensures |calls| > |old(calls)| ==> calls[|old(calls)|].PutAsked? && calls[|old(calls)|].ttl == ttl
      ensures !ok <==> StoreFails(policy, size, envelopeEncodes, PutFailed(calls, |old(calls)|))
    {
      if size.None? {
        return false;
      }
      if size.value > policy.maxValueSize {
        return true;
      }
      if !envelopeEncodes {
        return false;
      }
      var put: bool := *;
      Log(PutAsked(ttl, put));
      if !put {
        backendErrors := backendErrors + 1;
      }
      ok := put || policy.failureMode.FailOpen?;
    }

    /**
     * `after` on a query: `result` is the database's answer, None an error; `buffer` says whether the
     * transaction has a buffer. `buffered` is set when the value goes there. A failed generation ends the
     * hook quietly in both failure modes; otherwise followers are woken, and a result goes into the session
     * cache, whatever the policy keeps.
     */
    method AfterQuery(
        cacheable: bool, inTransaction: bool, buffer: bool, result: Option<Value>, size: Option<nat>,
        envelopeEncodes: bool)
      returns (ok: bool, buffered: bool)
      requires Valid()
      modifies this
      ensures Valid() && |calls| >= |old(calls)| && old(calls) <= calls
      ensures Follows(cacheable, result, calls, |old(calls)|)
      ensures var from := |old(calls)| + 3;
              var keeps := |calls| >= from && Keeps(policy, result);
              var defers := inTransaction && policy.transactionMode.Defer? && buffer;
              && (buffered <==> keeps && defers)
              && (!ok <==> keeps && !defers && StoreFails(policy, size, envelopeEncodes, PutFailed(calls, from)))
              && (|calls| > from <==> keeps && !defers && Storable(policy, size, envelopeEncodes))
              && (|calls| > from ==>
                    |calls| == from + 1 && calls[from].PutAsked? && calls[from].ttl == Ttl(policy, result.value))
      ensures policy.failureMode.FailOpen? && size.Some? && envelopeEncodes ==> ok
    {
      ok, buffered := true, false;
      if !cacheable {
        return;
      }
      var generation := ResolveKey();
      if generation.None? {
        return;
      }
      WakeFollowers(result.Some?);
      if result.None? {
        return;
      }
      FillSession(result.value);
      var defers := inTransaction && policy.transactionMode.Defer? && buffer;
      ok, buffered := KeepResult(defers, result.value, size, envelopeEncodes);
    }

    /** ... what becomes of the result: nothing, the buffer, or the backend. */
    method KeepResult(defers: bool, value: Value, size: Option<nat>, envelopeEncodes: bool)
      returns (ok: bool, buffered: bool)
      requires Valid()
      modifies this
      ensures Valid() && |calls| >= |old(calls)| && old(calls) <= calls
      ensures buffered <==> Keeps(policy, Some(value)) && defers
      ensures !ok <==>
                Keeps(policy, Some(value)) && !defers &&
                StoreFails(policy, size, envelopeEncodes, PutFailed(calls, |old(calls)|))
      ensures |calls| > |old(calls)| <==>
                Keeps(policy, Some(value)) && !defers && Storable(policy, size, envelopeEncodes)
      ensures |calls| > |old(calls)| ==>
                && |calls| == |old(calls)| + 1
                && calls[|old(calls)|].PutAsked? && calls[|old(calls)|].ttl == Ttl(policy, value)
    {
      ok, buffered := true, false;
      if !policy.cacheNull && IsEmpty(value) {
        return;
      }
      if defers {
        buffered := true;
        return;
      }
      var ttl := if IsEmpty(value) && policy.nullTtl.Some? then policy.nullTtl.value else policy.ttl;
      ok := StoreValue(size, envelopeEncodes, ttl);
    }

    /**
     * `after` on a statement: a change clears the session cache; inside a transaction it then only marks the
     * buffer, if there is one; outside it bumps. Only a FailClosed bump outside a transaction is an error.
     */
    method AfterExec(rowsAffected: Option<nat>, inTransaction: bool, buffer: bool) returns (ok: bool, marked: bool)
      requires Valid()
      modifies this
      ensures Valid()
      ensures var changed := rowsAffected.Some? && rowsAffected.value > 0;
              && (marked <==> changed && inTransaction && policy.transactionMode.Defer? && buffer)
              && (if changed && !inTransaction
                  then
                    && |calls| == |old(calls)| + 2 && old(calls) <= calls && calls[|old(calls)|].SessionCleared?
                    && calls[|old(calls)| + 1].BumpAsked?
                    && (!ok <==> policy.failureMode.FailClosed? && !calls[|old(calls)| + 1].ok)
                  else calls == old(calls) + (if changed then [SessionCleared] else []) && ok)
    {
      ok, marked := true, false;
      if rowsAffected.None? || rowsAffected.value == 0 {
        return;
      }
      Log(SessionCleared);
      if inTransaction {
        marked := policy.transactionMode.Defer? && buffer;
        return;
      }
      var bumped := Bump();
      ok := bumped || policy.failureMode.FailOpen?;
    }

    method Bump() returns (bumped: bool)
      requires Valid()
      modifies this
      ensures Valid() && |calls| == |old(calls)| + 1 && old(calls) <= calls
      ensures calls[|old(calls)|].BumpAsked? && calls[|old(calls)|].ok == bumped
    {
      bumped := *;
      Log(BumpAsked(bumped));
      if bumped {
        invalidations := invalidations + 1;
      } else {
        backendErrors := backendErrors + 1;
      }
    }
  }
}
