/** FIFO and LRU without sequence numbers: a shelf of slots, newest first, cut to size. */
module LocalRecency {
  import opened Common
  import opened LocalModel
  import LocalExpiry

  datatype Slot = Slot(key: Key, bytes: Bytes, expiresAt: nat)

  /** The reference: LRU moves what is read to the front, FIFO does not; the end of the shelf leaves first. */
  datatype Shelf = Shelf(slots: seq<Slot>, generations: map<string, nat>)

  function Alive(slots: seq<Slot>, now: nat): seq<Slot> {
    if slots == [] then [] else
      var s, rest := slots[|slots| - 1], Alive(slots[..|slots| - 1], now);
      if s.expiresAt > now then rest + [s] else rest
  }

  function Without(slots: seq<Slot>, key: Key): seq<Slot> {
    if slots == [] then [] else
      var s, rest := slots[|slots| - 1], Without(slots[..|slots| - 1], key);
      if s.key == key then rest else rest + [s]
  }

  function Find(slots: seq<Slot>, key: Key): Option<Slot> {
    if slots == [] then None
    else if slots[|slots| - 1].key == key then Some(slots[|slots| - 1])
    else Find(slots[..|slots| - 1], key)
  }

  /** The first `limit` slots, and the keys of the others, last one first. */
  function Cut(slots: seq<Slot>, limit: nat): (seq<Slot>, seq<Key>)
    decreases |slots|
  {
    if |slots| <= limit then (slots, []) else
      var r := Cut(slots[..|slots| - 1], limit);
      (r.0, [slots[|slots| - 1].key] + r.1)
  }

  /** How many slots stay when one more is about to come. */
  function Limit(max: nat): nat {
    if max == 0 then 0 else max - 1
  }

  function MakeRoom(cfg: Config, slots: seq<Slot>, now: nat): (seq<Slot>, seq<Key>) {
    match cfg.maxEntries
    case None => (Alive(slots, now), [])
    case Some(max) => Cut(Alive(slots, now), Limit(max))
  }

  function Place(cfg: Config, slots: seq<Slot>, slot: Slot, now: nat): (seq<Slot>, seq<Key>) {
    var room := MakeRoom(cfg, slots, now);
    ([slot] + Without(room.0, slot.key), room.1)
  }

  function ShelfStep(cfg: Config, shelf: Shelf, op: Op): (Shelf, Seen) {
    match op
    case Get(digest, now) =>
      var alive := Alive(shelf.slots, now);
      (match Find(alive, EntryKey(digest))
       case None => (shelf.(slots := alive), Got(None))
       case Some(slot) =>
         (shelf.(slots := if cfg.eviction == Lru then [slot] + Without(alive, slot.key) else alive),
          Got(Some(slot.bytes))))
    case Put(digest, bytes, ttlMs, now) =>
      var r := Place(cfg, shelf.slots, Slot(EntryKey(digest), bytes, ExpiryOf(now, ttlMs)), now);
      (shelf.(slots := r.0), Stored(r.1))
    case Generation(namespace, now) => (shelf, Read(GenerationOf(shelf.generations, namespace)))
    case Bump(namespace, now) =>
      var g := GenerationOf(shelf.generations, namespace) + 1;
      var r := Place(cfg, shelf.slots, Slot(GenerationKey(cfg, namespace), GenerationBytes(g), U64_MAX), now);
      (Shelf(r.0, shelf.generations[namespace := g]), Bumped(g, r.1))
    case Prune(now) => (shelf.(slots := Alive(shelf.slots, now)), Pruned)
  }

  function ShelfRun(cfg: Config, trace: seq<Op>): (Shelf, seq<Seen>) {
    if trace == [] then (Shelf([], map[]), []) else
      var r := ShelfRun(cfg, trace[..|trace| - 1]);
      var s := ShelfStep(cfg, r.0, trace[|trace| - 1]);
      (s.0, r.1 + [s.1])
  }

  // ------------------------------------------------------------- the relation

  /** The shelf lists exactly the entries of `m`, the policy's victim last, the next victim before it, and so on. */
  ghost predicate Ordered(strategy: Strategy, slots: seq<Slot>, m: Entries) {
    if slots == [] then m == map[] else
      var s := slots[|slots| - 1];
      && IsVictim(strategy, m, s.key)
      && m[s.key].bytes == s.bytes && m[s.key].expiresAt == s.expiresAt
      && Ordered(strategy, slots[..|slots| - 1], m - {s.key})
  }

  lemma {:induction false} OrderedSize(strategy: Strategy, slots: seq<Slot>, m: Entries)
    requires Ordered(strategy, slots, m)
    ensures |slots| == |m|
  {
    if slots != [] {
      var s := slots[|slots| - 1];
      OrderedSize(strategy, slots[..|slots| - 1], m - {s.key});
      assert (m - {s.key}).Keys == m.Keys - {s.key};
      assert |m.Keys - {s.key}| == |m.Keys| - 1;
    }
  }

  lemma {:induction false} OrderedFind(strategy: Strategy, slots: seq<Slot>, m: Entries, key: Key)
    requires Ordered(strategy, slots, m)
    ensures Find(slots, key).Some? <==> key in m
    ensures key in m ==> Find(slots, key) == Some(Slot(key, m[key].bytes, m[key].expiresAt))
  {
    if slots != [] {
      OrderedFind(strategy, slots[..|slots| - 1], m - {slots[|slots| - 1].key}, key);
    }
  }

  lemma {:induction false} OrderedAlive(strategy: Strategy, slots: seq<Slot>, m: Entries, now: nat)
    requires Ordered(strategy, slots, m)
    ensures Ordered(strategy, Alive(slots, now), Live(m, now))
  {
    if slots != [] {
      var s := slots[|slots| - 1];
      OrderedAlive(strategy, slots[..|slots| - 1], m - {s.key}, now);
      if s.expiresAt > now {
        assert Live(m, now) - {s.key} == Live(m - {s.key}, now);
        assert Alive(slots, now)[..|Alive(slots, now)| - 1] == Alive(slots[..|slots| - 1], now);
      } else {
        assert Live(m, now) == Live(m - {s.key}, now);
      }
    }
  }

  lemma {:induction false} OrderedWithout(strategy: Strategy, slots: seq<Slot>, m: Entries, key: Key)
    requires Ordered(strategy, slots, m)
    ensures Ordered(strategy, Without(slots, key), m - {key})
  {
    if slots != [] {
      var s := slots[|slots| - 1];
      OrderedWithout(strategy, slots[..|slots| - 1], m - {s.key}, key);
      if s.key == key {
        assert m - {key} == m - {s.key} - {key};
      } else {
        assert (m - {key}) - {s.key} == (m - {s.key}) - {key};
        assert Without(slots, key)[..|Without(slots, key)| - 1] == Without(slots[..|slots| - 1], key);
      }
    }
  }

  /** What is newer than everything goes to the front. */
  lemma {:induction false} OrderedFront(strategy: Strategy, slots: seq<Slot>, m: Entries, slot: Slot, e: Entry)
    requires Ordered(strategy, slots, m) && slot.key !in m
    requires e.bytes == slot.bytes && e.expiresAt == slot.expiresAt
    requires forall k | k in m :: Before(strategy, m[k], e)
    ensures Ordered(strategy, [slot] + slots, m[slot.key := e])
  {
    var shelf, grown := [slot] + slots, m[slot.key := e];
    if slots == [] {
      assert grown - {slot.key} == map[];
      assert shelf[..0] == [];
    } else {
      var s := slots[|slots| - 1];
      OrderedFront(strategy, slots[..|slots| - 1], m - {s.key}, slot, e);
      assert grown - {s.key} == (m - {s.key})[slot.key := e];
      assert shelf[..|shelf| - 1] == [slot] + slots[..|slots| - 1];
    }
  }

  lemma {:induction false} OrderedFifoTouch(slots: seq<Slot>, m: Entries, key: Key, seq_: nat)
    requires Ordered(Fifo, slots, m) && key in m
    ensures Ordered(Fifo, slots, m[key := Touched(m[key], seq_)])
  {
    var s, after := slots[|slots| - 1], m[key := Touched(m[key], seq_)];
    if s.key == key {
      assert after - {key} == m - {key};
    } else {
      OrderedFifoTouch(slots[..|slots| - 1], m - {s.key}, key, seq_);
      assert after - {s.key} == (m - {s.key})[key := Touched(m[key], seq_)];
    }
  }

  lemma {:induction false} OrderedCut(strategy: Strategy, slots: seq<Slot>, m: Entries, max: nat)
    requires strategy != Lfu && Distinct(m) && Ordered(strategy, slots, m)
    ensures var a, b := EvictLoop(strategy, m, max), Cut(slots, Limit(max));
            Ordered(strategy, b.0, a.0) && a.1 == b.1
    decreases |slots|
  {
    OrderedSize(strategy, slots, m);
    if slots != [] && |m| >= max {
      var v := slots[|slots| - 1].key;
      VictimIsUnique(strategy, m, v, Victim(strategy, m));
      EvictOneMore(strategy, m, max);
      OrderedCut(strategy, slots[..|slots| - 1], m - {v}, max);
    }
  }

  // ------------------------------------------------------------ the refinement

  ghost predicate Related(cfg: Config, st: Local, shelf: Shelf, now: nat) {
    && shelf.generations == st.generations
    && Ordered(cfg.eviction, Alive(shelf.slots, now), Live(st.entries, now))
  }

  lemma {:induction false} AliveTwice(slots: seq<Slot>, now: nat, later: nat)
    requires now <= later
    ensures Alive(Alive(slots, now), later) == Alive(slots, later)
  {
    if slots != [] {
      AliveTwice(slots[..|slots| - 1], now, later);
      var s, shorter := slots[|slots| - 1], Alive(slots[..|slots| - 1], now);
      if s.expiresAt > now {
        assert (shorter + [s])[..|shorter|] == shorter;
      }
    }
  }

  lemma RelatedLater(cfg: Config, st: Local, shelf: Shelf, now: nat, later: nat)
    requires now <= later && Related(cfg, st, shelf, now)
    ensures Related(cfg, st, shelf, later)
  {
    OrderedAlive(cfg.eviction, Alive(shelf.slots, now), Live(st.entries, now), later);
    AliveTwice(shelf.slots, now, later);
    LocalExpiry.CleanTwice(st, now, later);
  }

  /** The room made by the backend, seen through its live entries, is the cut of the shelf. */
  lemma RoomIsCut(cfg: Config, m: Entries, slots: seq<Slot>, now: nat)
    requires cfg.eviction != Lfu && Distinct(m) && Ordered(cfg.eviction, Alive(slots, now), Live(m, now))
    ensures EvictIfNeeded(cfg, m, now).1 == MakeRoom(cfg, slots, now).1
    ensures Ordered(cfg.eviction, MakeRoom(cfg, slots, now).0, Live(EvictIfNeeded(cfg, m, now).0, now))
  {
    var room := EvictIfNeeded(cfg, m, now);
    LocalExpiry.LiveRoom(cfg, m, now);
    match cfg.maxEntries
    case None =>
      assert room == (m, []);
    case Some(max) =>
      var alive, live := Alive(slots, now), Live(m, now);
      OrderedCut(cfg.eviction, alive, live, max);
      assert Live(room.0, now) == EvictLoop(cfg.eviction, live, max).0;
  }

  /** It makes no difference whether the dead go before the entry comes. */
  lemma LiveAgain(m: Entries, k: Key, e: Entry, now: nat)
    ensures Live(Live(m, now)[k := e], now) == Live(m[k := e], now)
  {
  }

  /** The slot goes to the front, and its predecessor, if any, leaves. */
  lemma FrontOrdered(strategy: Strategy, room: seq<Slot>, live: Entries, slot: Slot, e: Entry)
    requires Ordered(strategy, room, live) && e.bytes == slot.bytes && e.expiresAt == slot.expiresAt
    requires forall k | k in live :: Before(strategy, live[k], e)
    ensures Ordered(strategy, [slot] + Without(room, slot.key), live[slot.key := e])
  {
    OrderedWithout(strategy, room, live, slot.key);
    OrderedFront(strategy, Without(room, slot.key), live - {slot.key}, slot, e);
    assert (live - {slot.key})[slot.key := e] == live[slot.key := e];
  }

  /** Inserting a fresh entry into what is live is placing a slot on the shelf. */
  lemma PlaceOrdered(strategy: Strategy, room: seq<Slot>, m: Entries, slot: Slot, e: Entry, now: nat)
    requires Ordered(strategy, room, Live(m, now))
    requires e.bytes == slot.bytes && e.expiresAt == slot.expiresAt
    requires forall k | k in m :: Before(strategy, m[k], e)
    ensures Ordered(strategy, Alive([slot] + Without(room, slot.key), now), Live(m[slot.key := e], now))
  {
    FrontOrdered(strategy, room, Live(m, now), slot, e);
    OrderedAlive(strategy, [slot] + Without(room, slot.key), Live(m, now)[slot.key := e], now);
    LiveAgain(m, slot.key, e, now);
  }

  lemma InsertIsPlace(cfg: Config, st: Local, shelf: Shelf, slot: Slot, now: nat)
    requires cfg.eviction != Lfu && Valid(st) && Related(cfg, st, shelf, now)
    ensures InsertStep(cfg, st, slot.key, slot.bytes, slot.expiresAt, now).1 == Place(cfg, shelf.slots, slot, now).1
    ensures Ordered(cfg.eviction, Alive(Place(cfg, shelf.slots, slot, now).0, now),
                    Live(InsertStep(cfg, st, slot.key, slot.bytes, slot.expiresAt, now).0.entries, now))
  {
    RoomIsCut(cfg, st.entries, shelf.slots, now);
    EvictionKeepsValid(cfg, st, now);
    PlaceOrdered(cfg.eviction, MakeRoom(cfg, shelf.slots, now).0, EvictIfNeeded(cfg, st.entries, now).0, slot,
                 NewEntry(slot.bytes, slot.expiresAt, st.seq_), now);
  }

  lemma HitOrdered(strategy: Strategy, alive: seq<Slot>, m: Entries, k: Key, seq_: nat, now: nat)
    requires strategy != Lfu && Ordered(strategy, alive, Live(m, now)) && k in Live(m, now)
    requires forall j | j in m :: m[j].lastAccess < seq_
    ensures Find(alive, k) == Some(Slot(k, m[k].bytes, m[k].expiresAt))
    ensures Ordered(strategy, Alive(if strategy == Lru then [Find(alive, k).value] + Without(alive, k) else alive, now),
                    Live(m[k := Touched(m[k], seq_)], now))
  {
    var live, e := Live(m, now), Touched(m[k], seq_);
    OrderedFind(strategy, alive, live, k);
    if strategy == Lru {
      PlaceOrdered(Lru, alive, m, Find(alive, k).value, e, now);
    } else {
      OrderedFifoTouch(alive, live, k, seq_);
      LocalExpiry.LiveOfUpdate(m, k, e, now);
      OrderedAlive(Fifo, alive, live[k := e], now);
      LocalExpiry.LiveOfUpdate(live, k, e, now);
      assert Live(live, now) == live;
    }
  }

  lemma MissOrdered(strategy: Strategy, alive: seq<Slot>, m: Entries, k: Key, now: nat)
    requires Ordered(strategy, alive, Live(m, now)) && k !in Live(m, now)
    ensures Find(alive, k) == None
    ensures Live(m - {k}, now) == Live(m, now)
  {
    OrderedFind(strategy, alive, Live(m, now), k);
  }

  lemma GetIsFind(cfg: Config, st: Local, shelf: Shelf, digest: string, now: nat)
    requires cfg.eviction != Lfu && Valid(st) && Related(cfg, st, shelf, now)
    ensures GetStep(st, digest, now).1 == ShelfStep(cfg, shelf, Get(digest, now)).1
    ensures Related(cfg, GetStep(st, digest, now).0, ShelfStep(cfg, shelf, Get(digest, now)).0, now)
  {
    var k, alive := EntryKey(digest), Alive(shelf.slots, now);
    var a, b := GetStep(st, digest, now).0, ShelfStep(cfg, shelf, Get(digest, now)).0;
    AliveTwice(shelf.slots, now, now);
    if k in Live(st.entries, now) {
      HitOrdered(cfg.eviction, alive, st.entries, k, st.seq_, now);
      assert a.entries == st.entries[k := Touched(st.entries[k], st.seq_)];
      assert b.slots == if cfg.eviction == Lru then [Find(alive, k).value] + Without(alive, k) else alive;
    } else {
      MissOrdered(cfg.eviction, alive, st.entries, k, now);
      assert b.slots == alive;
      assert Live(a.entries, now) == Live(st.entries, now);
    }
  }

  /** A new entry and raised generations on both sides. */
  lemma RaisedRelated(
      cfg: Config, st: Local, st': Local, shelf: Shelf, shelf': Shelf, slot: Slot, raised: map<string, nat>, now: nat)
    requires cfg.eviction != Lfu && Valid(st) && Related(cfg, st, shelf, now)
    requires st'.entries == InsertStep(cfg, st, slot.key, slot.bytes, slot.expiresAt, now).0.entries
    requires shelf'.slots == Place(cfg, shelf.slots, slot, now).0
    requires st'.generations == raised == shelf'.generations
    ensures InsertStep(cfg, st, slot.key, slot.bytes, slot.expiresAt, now).1 == Place(cfg, shelf.slots, slot, now).1
    ensures Related(cfg, st', shelf', now)
  {
    InsertIsPlace(cfg, st, shelf, slot, now);
  }

  lemma BumpRelated(cfg: Config, st: Local, shelf: Shelf, ns: string, now: nat)
    requires cfg.eviction != Lfu && Valid(st) && Related(cfg, st, shelf, now)
    ensures BumpStep(cfg, st, ns, now).1 == ShelfStep(cfg, shelf, Bump(ns, now)).1
    ensures Related(cfg, BumpStep(cfg, st, ns, now).0, ShelfStep(cfg, shelf, Bump(ns, now)).0, now)
  {
    var g := GenerationOf(st.generations, ns) + 1;
    var slot := Slot(GenerationKey(cfg, ns), GenerationBytes(g), U64_MAX);
    RaisedRelated(cfg, st, BumpStep(cfg, st, ns, now).0, shelf, ShelfStep(cfg, shelf, Bump(ns, now)).0, slot,
                  st.generations[ns := g], now);
  }

  lemma StepRelated(cfg: Config, st: Local, shelf: Shelf, op: Op)
    requires cfg.eviction != Lfu && Valid(st) && Related(cfg, st, shelf, op.now)
    ensures Apply(cfg, st, op).1 == ShelfStep(cfg, shelf, op).1
    ensures Related(cfg, Apply(cfg, st, op).0, ShelfStep(cfg, shelf, op).0, op.now)
  {
    match op
    case Get(digest, now) => GetIsFind(cfg, st, shelf, digest, now);
    case Put(d, bytes, ttl, now) =>
      InsertIsPlace(cfg, st, shelf, Slot(EntryKey(d), bytes, ExpiryOf(now, ttl)), now);
    case Generation(_, _) =>
    case Bump(ns, now) => BumpRelated(cfg, st, shelf, ns, now);
    case Prune(now) =>
      AliveTwice(shelf.slots, now, now);
      LocalExpiry.CleanTwice(st, now, now);
  }

  lemma {:induction false} RunRelated(cfg: Config, trace: seq<Op>, now: nat)
    requires cfg.eviction != Lfu && Monotone(trace)
    requires forall i | 0 <= i < |trace| :: trace[i].now <= now
    ensures Run(cfg, EMPTY, trace).1 == ShelfRun(cfg, trace).1
    ensures Related(cfg, Run(cfg, EMPTY, trace).0, ShelfRun(cfg, trace).0, now)
  {
    if trace == [] {
      assert Live(map[], now) == map[];
    } else {
      var shorter, op := trace[..|trace| - 1], trace[|trace| - 1];
      RunRelated(cfg, shorter, op.now);
      StepRelated(cfg, Run(cfg, EMPTY, shorter).0, ShelfRun(cfg, shorter).0, op);
      RelatedLater(cfg, Run(cfg, EMPTY, trace).0, ShelfRun(cfg, trace).0, op.now, now);
    }
  }

  /**
   * Under FIFO and LRU the backend answers and evicts, over any trace, exactly what the shelf does: the
   * victim is always the far end of a move-to-front (LRU) or insertion-ordered (FIFO) list.
   */
  lemma SequenceNumbersAreAList(cfg: Config, trace: seq<Op>)
    requires cfg.eviction != Lfu && Monotone(trace)
    ensures Run(cfg, EMPTY, trace).1 == ShelfRun(cfg, trace).1
  {
    RunRelated(cfg, trace, if trace == [] then 0 else trace[|trace| - 1].now);
  }
}
