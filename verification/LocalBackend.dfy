/** The in-process backend as it runs: maps changed in place, real loops, proved against `LocalModel`. */
module LocalBackends {
  import opened Common
  import opened LocalModel
  import LocalContents

  class LocalBackend {
    const config: Config
    var entries: Entries
    var generations: map<string, nat>
    var nextSeq: nat
    ghost var trace: seq<Op>
    ghost var seen: seq<Seen>

    /** The backend is where its operations so far have brought it, and has answered what they answer. */
    ghost predicate Traced()
      reads this
    {
      Run(config, EMPTY, trace) == (Current(), seen)
    }

    /** One operation more. */
    ghost method Log(before: Local, op: Op, s: Seen)
      requires Run(config, EMPTY, trace) == (before, seen) && (Current(), s) == Apply(config, before, op)
      modifies this`trace, this`seen
      ensures Traced() && trace == old(trace) + [op] && seen == old(seen) + [s]
    {
      assert (trace + [op])[..|trace|] == trace;
      trace, seen := trace + [op], seen + [s];
    }

    ghost function Current(): Local
      reads this
    {
      Local(entries, generations, nextSeq)
    }

    constructor (config: Config)
      ensures this.config == config && Current() == EMPTY && Traced() && trace == []
    {
      this.config := config;
      entries, generations, nextSeq, trace, seen := map[], map[], 0, [], [];
    }

    /** `retain`, run by the background worker and before an eviction. */
    method Retain(now: nat)
      modifies this`entries
      ensures entries == Live(old(entries), now)
    {
      var pending := entries.Keys;
      while pending != {}
        invariant pending <= entries.Keys
        invariant entries ==
                  map k | k in old(entries) && (k in pending || old(entries)[k].expiresAt > now) :: old(entries)[k]
        decreases |pending|
      {
        var k :| k in pending;
        if !(entries[k].expiresAt > now) {
          entries := entries - {k};
        }
        pending := pending - {k};
      }
    }

    /** The first pass of `LfuPolicy::pick_victim`: the smallest counter. */
    method MinAccess() returns (low: nat)
      requires entries != map[]
      ensures IsMinAccess(entries, low)
    {
      var first :| first in entries;
      low := entries[first].accesses;
      var pending := entries.Keys;
      while pending != {}
        invariant pending <= entries.Keys
        invariant exists k :: k in entries && entries[k].accesses == low
        invariant forall k | k in entries && k !in pending :: low <= entries[k].accesses
        decreases |pending|
      {
        var k :| k in pending;
        if entries[k].accesses < low {
          low := entries[k].accesses;
        }
        pending := pending - {k};
      }
    }

    /** The second pass: subtract it from every counter. */
    method SubtractFromAll(amount: nat)
      modifies this`entries
      ensures entries == Sweep(old(entries), amount)
    {
      var pending := entries.Keys;
      while pending != {}
        invariant pending <= entries.Keys == old(entries).Keys
        invariant forall k | k in entries ::
            entries[k] == if k in pending then old(entries)[k] else Aged(old(entries)[k], amount)
        decreases |pending|
      {
        var k :| k in pending;
        entries := entries[k := Aged(entries[k], amount)];
        pending := pending - {k};
      }
    }

    /** `min_by_key`: one pass over the map, keeping the first entry in the policy's order. */
    method MinByKey() returns (victim: Key)
      requires entries != map[] && Distinct(entries)
      ensures IsVictim(config.eviction, entries, victim)
    {
      victim :| victim in entries;
      var pending := entries.Keys - {victim};
      while pending != {}
        invariant pending <= entries.Keys && victim in entries && victim !in pending
        invariant forall k | k in entries && k !in pending && k != victim ::
                    Before(config.eviction, entries[victim], entries[k])
        decreases |pending|
      {
        var k :| k in pending;
        if Before(config.eviction, entries[k], entries[victim]) {
          victim := k;
        }
        pending := pending - {k};
      }
    }

    /** `LfuPolicy::pick_victim`: age everyone, then take the first in order. */
    method PickLfu() returns (victim: Key)
      requires entries != map[] && Distinct(entries) && config.eviction == Lfu
      modifies this`entries
      ensures victim == Victim(Lfu, old(entries)) && entries == Prepared(Lfu, old(entries))
    {
      var low := MinAccess();
      SweepKeepsOrder(entries, Victim(Lfu, entries));
      MinAccessIsUnique(entries, low, entries[Victim(Lfu, entries)].accesses);
      SubtractFromAll(low);
      victim := MinByKey();
      VictimIsUnique(Lfu, entries, victim, Victim(Lfu, old(entries)));
    }

    /** `victim_key` */
    method VictimKey() returns (victim: Option<Key>)
      requires Distinct(entries)
      modifies this`entries
      ensures old(entries) == map[] ==> victim == None && entries == old(entries)
      ensures old(entries) != map[] ==>
                && victim == Some(Victim(config.eviction, old(entries)))
                && entries == Prepared(config.eviction, old(entries))
    {
      if entries == map[] {
        return None;
      }
      var v;
      if config.eviction == Lfu {
        v := PickLfu();
      } else {
        v := MinByKey();
        VictimIsUnique(config.eviction, entries, v, Victim(config.eviction, entries));
      }
      victim := Some(v);
    }

    /** The loop of `evict_if_needed`. */
    method EvictDown(max: nat) returns (ghost evicted: seq<Key>)
      requires Distinct(entries)
      modifies this`entries
      ensures (entries, evicted) == EvictLoop(config.eviction, old(entries), max)
    {
      evicted := [];
      ghost var goal := EvictLoop(config.eviction, entries, max);
      assert goal.1 == [] + goal.1;
      while |entries| >= max
        invariant Distinct(entries)
        invariant goal.0 == EvictLoop(config.eviction, entries, max).0
        invariant goal.1 == evicted + EvictLoop(config.eviction, entries, max).1
        decreases |entries|
      {
        ghost var before := entries;
        var victim := VictimKey();
        if victim.None? {
          break;
        }
        EvictOneMore(config.eviction, before, max);
        entries := entries - {victim.value};
        Appended(evicted, victim.value, EvictLoop(config.eviction, entries, max).1);
        evicted := evicted + [victim.value];
      }
      assert EvictLoop(config.eviction, entries, max) == (entries, []);
      assert evicted + [] == evicted;
    }

    /** `evict_if_needed` */
    method MakeRoom(now: nat) returns (ghost evicted: seq<Key>)
      requires Distinct(entries)
      modifies this`entries
      ensures (entries, evicted) == EvictIfNeeded(config, old(entries), now)
    {
      if config.maxEntries.None? || |entries| < config.maxEntries.value {
        evicted := [];
        return;
      }
      LiveKeepsDistinct(entries, now);
      Retain(now);
      evicted := EvictDown(config.maxEntries.value);
    }

    /** `CacheBackend::get`: read, drop what has expired, refresh what has not. */
    method Get(digest: string, now: nat) returns (value: Option<Bytes>)
      requires Traced()
      modifies this
      ensures (Current(), Got(value)) == Apply(config, old(Current()), LocalModel.Get(digest, now))
      ensures Traced() && trace == old(trace) + [LocalModel.Get(digest, now)] && seen == old(seen) + [Got(value)]
    {
      ghost var before := Current();
      var k := EntryKey(digest);
      value := None;
      if k in entries && entries[k].expiresAt > now {
        value := Some(entries[k].bytes);
      }
      if k in entries && entries[k].expiresAt <= now {
        entries := entries - {k};
      }
      if k in entries {
        entries := entries[k := entries[k].(lastAccess := nextSeq, accesses := SaturatingAdd(entries[k].accesses, 1))];
        nextSeq := nextSeq + 1;
      }
      assert (Current(), Got(value)) == GetStep(before, digest, now);
      Log(before, LocalModel.Get(digest, now), Got(value));
    }

    /** How `put` and `bump_generation` end: make room, take a sequence number, insert. */
    method Insert(k: Key, bytes: Bytes, expiresAt: nat, now: nat) returns (ghost evicted: seq<Key>)
      requires LocalModel.Valid(Current())
      modifies this`entries, this`nextSeq
      ensures (Current(), evicted) == InsertStep(config, old(Current()), k, bytes, expiresAt, now)
    {
      evicted := MakeRoom(now);
      var seq_ := nextSeq;
      nextSeq := nextSeq + 1;
      entries := entries[k := Entry(bytes, expiresAt, seq_, seq_, 0)];
    }

    /** `CacheBackend::put` */
    method Put(digest: string, bytes: Bytes, ttlMs: nat, now: nat) returns (ghost evicted: seq<Key>)
      requires Traced()
      modifies this
      ensures (Current(), Stored(evicted)) == Apply(config, old(Current()), LocalModel.Put(digest, bytes, ttlMs, now))
      ensures Traced() && trace == old(trace) + [LocalModel.Put(digest, bytes, ttlMs, now)]
      ensures seen == old(seen) + [Stored(evicted)]
    {
      ghost var before := Current();
      var ttl := if ttlMs == 0 then DEFAULT_TTL_MS else ttlMs;
      evicted := Insert(EntryKey(digest), bytes, SaturatingAdd(now, ttl % (U64_MAX + 1)), now);
      Log(before, LocalModel.Put(digest, bytes, ttlMs, now), Stored(evicted));
    }

    /** `CacheBackend::generation` */
    method ReadGeneration(namespace: string, now: nat) returns (g: nat)
      requires Traced()
      modifies this
      ensures g == GenerationOf(old(generations), namespace) && Current() == old(Current())
      ensures Traced() && trace == old(trace) + [LocalModel.Generation(namespace, now)] && seen == old(seen) + [Read(g)]
    {
      if namespace in generations {
        g := generations[namespace];
      } else {
        g := 0;
      }
      Log(Current(), LocalModel.Generation(namespace, now), Read(g));
    }

    /** `bump` */
    method Raise(namespace: string) returns (g: nat)
      modifies this`generations
      ensures g == GenerationOf(old(generations), namespace) + 1 && generations == old(generations)[namespace := g]
    {
      if namespace !in generations {
        generations := generations[namespace := 0];
      }
      g := generations[namespace] + 1;
      generations := generations[namespace := g];
    }

    /** `CacheBackend::bump_generation`: the counter first, then its copy among the entries. */
    method Bump(namespace: string, now: nat) returns (g: nat, ghost evicted: seq<Key>)
      requires Traced()
      modifies this
      ensures (Current(), Bumped(g, evicted)) == Apply(config, old(Current()), LocalModel.Bump(namespace, now))
      ensures Traced() && trace == old(trace) + [LocalModel.Bump(namespace, now)]
      ensures seen == old(seen) + [Bumped(g, evicted)]
    {
      g, evicted := RaiseAndCopy(namespace, now);
      Log(old(Current()), LocalModel.Bump(namespace, now), Bumped(g, evicted));
    }

    method RaiseAndCopy(namespace: string, now: nat) returns (g: nat, ghost evicted: seq<Key>)
      requires LocalModel.Valid(Current())
      modifies this`entries, this`generations, this`nextSeq
      ensures (Current(), Bumped(g, evicted)) == BumpStep(config, old(Current()), namespace, now)
    {
      g := Raise(namespace);
      BumpFirst(config, old(Current()), Current(), namespace, now);
      evicted := Insert(GenerationKey(config, namespace), GenerationBytes(g), U64_MAX, now);
    }

    /** One round of the background worker. */
    method Prune(now: nat)
      requires Traced()
      modifies this
      ensures (Current(), Pruned) == Apply(config, old(Current()), LocalModel.Prune(now))
      ensures Traced() && trace == old(trace) + [LocalModel.Prune(now)] && seen == old(seen) + [Pruned]
    {
      ghost var before := Current();
      Retain(now);
      Log(before, LocalModel.Prune(now), Pruned);
    }
  }

  /** What is proved of traces holds of the object's life: here, every read of it refines the plain map ... */
  lemma BackendRefinesLastPut(b: LocalBackend, i: nat)
    requires b.Traced() && i < |b.trace| && b.trace[i].Get?
    ensures |b.seen| == |b.trace|
    ensures var op := b.trace[i];
            var plain := LocalContents.Unexpired(LocalContents.LastPut(b.trace[..i]), op.digest, op.now);
            && b.seen[i].Got? && (b.seen[i].value == None || b.seen[i].value == plain)
            && (b.config.maxEntries.None? && Monotone(b.trace) ==> b.seen[i].value == plain)
  {
    LocalContents.GetRefinesLastPut(b.config, b.trace, i);
  }

  /** ... and answers what was put only while that put is alive, ... */
  lemma BackendHonoursTtl(b: LocalBackend, i: nat, j: nat)
    requires b.Traced() && i < |b.trace| && b.trace[i].Get?
    requires LocalContents.LastPutAt(b.trace, b.trace[i].digest, j, i)
    ensures |b.seen| == |b.trace| && b.seen[i].Got?
    ensures b.seen[i].value.Some? ==>
              b.seen[i].value.value == b.trace[j].bytes && LocalContents.Alive(b.trace[j], b.trace[i].now)
    ensures b.config.maxEntries.None? && Monotone(b.trace) ==>
              (b.seen[i].value.Some? <==> LocalContents.Alive(b.trace[j], b.trace[i].now))
  {
    LocalContents.ReadsLiveForTheirTtl(b.config, b.trace, i, j);
  }

  /** ... and its map is within the bound. */
  lemma BackendIsWithinBound(b: LocalBackend)
    requires b.Traced() && b.config.maxEntries.Some?
    ensures |b.entries| <= Max(1, b.config.maxEntries.value)
  {
    LocalContents.NeverOverCapacity(b.config, b.trace);
  }
}
