/** The envelope of an entry, and the clock it is read by. */
module Envelopes {
  import opened Common

  datatype Envelope<P> = Envelope(version: nat, generation: nat, expiresAt: nat, payload: P)

  /** `now_ms`: milliseconds since the epoch. A clock set before the epoch reads as the epoch itself. */
  function NowMs(clock: int): nat {
    if clock < 0 then 0 else if clock > U64_MAX then U64_MAX else clock
  }

  /** `CacheEnvelope::new` */
  function Seal<P>(generation: nat, payload: P, ttlMs: nat, clock: int): Envelope<P> {
    Envelope(1, generation, SaturatingAdd(NowMs(clock), if ttlMs <= U64_MAX then ttlMs else U64_MAX), payload)
  }

  predicate IsFresh<P>(envelope: Envelope<P>, generation: nat, clock: int) {
    envelope.version == 1 && envelope.generation == generation && envelope.expiresAt > NowMs(clock)
  }

  /** Between two clocks past the epoch, and short of saturation, an entry lives for exactly its TTL. */
  lemma LivesForItsTtl<P>(generation: nat, payload: P, ttlMs: nat, sealed: int, read: int)
    requires 0 <= sealed && 0 <= read && sealed + ttlMs <= U64_MAX
    ensures IsFresh(Seal(generation, payload, ttlMs, sealed), generation, read) <==> read < sealed + ttlMs
  {
  }

  /**
   * The documentation has a clock before the epoch reject old entries. It does so for an entry if and only
   * if the entry was itself sealed at or before the epoch, with a TTL of zero.
   */
  lemma RejectedBeforeEpochIff<P>(generation: nat, payload: P, ttlMs: nat, sealed: int, read: int)
    requires read < 0
    ensures !IsFresh(Seal(generation, payload, ttlMs, sealed), generation, read) <==> sealed <= 0 && ttlMs == 0
  {
  }

  /** So an entry that has expired is served again once the clock falls back before the epoch. */
  lemma ExpiredEntryComesBack<P>(generation: nat, payload: P, ttlMs: nat, sealed: int, read: int, back: int)
    requires 0 < sealed && sealed + ttlMs <= read <= U64_MAX && back < 0
    ensures !IsFresh(Seal(generation, payload, ttlMs, sealed), generation, read)
    ensures IsFresh(Seal(generation, payload, ttlMs, sealed), generation, back)
  {
  }
  /** An entry of another generation, or of another version of the format, is never served, whatever the clock. */
  lemma OthersAreNeverFresh<P>(envelope: Envelope<P>, generation: nat, clock: int)
    requires envelope.generation != generation || envelope.version != 1
    ensures !IsFresh(envelope, generation, clock)
  {
  }

  /** What is served under a generation was sealed under it, and is what was sealed. */
  lemma OnlyTheSealedIsServed<P>(generation: nat, payload: P, ttlMs: nat, sealed: int, asked: nat, read: int)
    requires IsFresh(Seal(generation, payload, ttlMs, sealed), asked, read)
    ensures asked == generation && Seal(generation, payload, ttlMs, sealed).payload == payload
  {
    if asked != generation {
      OthersAreNeverFresh(Seal(generation, payload, ttlMs, sealed), asked, read);
    }
  }
}
