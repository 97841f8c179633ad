/** The memcached consistent-hash ring, for any hash function. */
module ConsistentHash {
  import opened Common
  import AddressLists

  /** A ring position: the source's `u64`. */
  type Point = p: nat | p <= U64_MAX

  type Hash = string -> Point

  /** `points` maps a position to the node that owns it. */
  datatype Ring = Ring(points: map<Point, nat>, nodeCount: nat)

  function ReplicaKey(node: nat, replica: nat): string {
    "node:" + AddressLists.PrintNat(node) + ":replica:" + AddressLists.PrintNat(replica)
  }

  /** Some virtual point of `node` sits at `p`. */
  ghost predicate Places(hash: Hash, node: nat, virtualNodes: nat, p: Point) {
    exists replica: nat :: replica < virtualNodes && hash(ReplicaKey(node, replica)) == p
  }

  /**
   * What the ring holds: every virtual point of every node below `nodeCount`, and a point where several
   * nodes collide belongs to the highest of them.
   */
  ghost predicate IsRing(hash: Hash, points: map<Point, nat>, nodeCount: nat, virtualNodes: nat) {
    && (forall p | p in points :: points[p] < nodeCount && Places(hash, points[p], virtualNodes, p))
    && (forall p, node: nat | node < nodeCount && Places(hash, node, virtualNodes, p) ::
          p in points && node <= points[p])
  }

  /** `ConsistentHashRing::new`. */
  method New(hash: Hash, nodeCount: nat, virtualNodes: nat) returns (ring: Ring)
    ensures ring.nodeCount == nodeCount
    ensures IsRing(hash, ring.points, nodeCount, virtualNodes)
  {
    var points: map<Point, nat> := map[];
    for node := 0 to nodeCount
      invariant IsRing(hash, points, node, virtualNodes)
    {
      ghost var before := points;
      for replica := 0 to virtualNodes
        invariant forall p | p in points ::
            (points[p] == node && Places(hash, node, replica, p)) || (p in before && points[p] == before[p])
        invariant forall p | p in before :: p in points
        invariant forall p | Places(hash, node, replica, p) :: p in points && points[p] == node
      {
        points := points[hash(ReplicaKey(node, replica)) := node];
      }
    }
    ring := Ring(points, nodeCount);
  }

  // -------------------------------------------------------------- virtual points

  /** Text up to a colon, and what follows a fixed middle that starts with it, are read back. */
  lemma PartsAreRead(front: string, a: string, middle: string, b: string, c: string, d: string)
    requires ':' !in a && ':' !in c && middle != "" && middle[0] == ':'
    requires front + a + middle + b == front + c + middle + d
    ensures a == c && b == d
  {
    var s := front + a + middle + b;
    assert s[|front|..] == a + [':'] + (middle[1..] + b);
    AddressLists.IndexOfFirst(a, ':', middle[1..] + b);
    assert s[|front|..] == c + [':'] + (middle[1..] + d);
    AddressLists.IndexOfFirst(c, ':', middle[1..] + d);
    assert a == s[|front|..][..|a|] && c == s[|front|..][..|c|];
    assert b == s[|front| + |a| + |middle|..] && d == s[|front| + |c| + |middle|..];
  }

  /** No two virtual points share a key. */
  lemma ReplicaKeyIsInjective(node: nat, replica: nat, otherNode: nat, otherReplica: nat)
    requires ReplicaKey(node, replica) == ReplicaKey(otherNode, otherReplica)
    ensures node == otherNode && replica == otherReplica
  {
    PartsAreRead("node:", AddressLists.PrintNat(node), ":replica:", AddressLists.PrintNat(replica),
                 AddressLists.PrintNat(otherNode), AddressLists.PrintNat(otherReplica));
    AddressLists.PrintsDecimal(node);
    AddressLists.PrintsDecimal(otherNode);
    AddressLists.PrintsDecimal(replica);
    AddressLists.PrintsDecimal(otherReplica);
  }

  /** The hash separates the keys of the ring's virtual points. */
  ghost predicate Separates(hash: Hash, nodeCount: nat, virtualNodes: nat) {
    forall n: nat, r: nat, m: nat, q: nat | n < nodeCount && m < nodeCount && r < virtualNodes && q < virtualNodes ::
      hash(ReplicaKey(n, r)) == hash(ReplicaKey(m, q)) ==> ReplicaKey(n, r) == ReplicaKey(m, q)
  }

  /** The points of one node. */
  function PointsOf(points: map<Point, nat>, node: nat): set<Point> {
    set p | p in points && points[p] == node
  }

  /** The places of a node's first `count` virtual points. */
  function PlacesOf(hash: Hash, node: nat, count: nat): set<Point> {
    set replica: nat | replica < count :: hash(ReplicaKey(node, replica))
  }

  lemma OnePlaceMore(hash: Hash, node: nat, count: nat)
    ensures PlacesOf(hash, node, count + 1) == PlacesOf(hash, node, count) + {hash(ReplicaKey(node, count))}
  {
    var more := PlacesOf(hash, node, count) + {hash(ReplicaKey(node, count))};
    forall p | p in more ensures p in PlacesOf(hash, node, count + 1) {
      assert p == hash(ReplicaKey(node, count)) || exists r: nat :: r < count && p == hash(ReplicaKey(node, r));
    }
  }

  lemma NewPlace(hash: Hash, nodeCount: nat, virtualNodes: nat, node: nat, count: nat)
    requires Separates(hash, nodeCount, virtualNodes) && node < nodeCount && count < virtualNodes
    ensures hash(ReplicaKey(node, count)) !in PlacesOf(hash, node, count)
  {
    forall r: nat | r < count ensures hash(ReplicaKey(node, r)) != hash(ReplicaKey(node, count)) {
      if hash(ReplicaKey(node, r)) == hash(ReplicaKey(node, count)) {
        ReplicaKeyIsInjective(node, r, node, count);
      }
    }
  }

  lemma {:induction false} PlacesApart(hash: Hash, nodeCount: nat, virtualNodes: nat, node: nat, count: nat)
    requires Separates(hash, nodeCount, virtualNodes) && node < nodeCount && count <= virtualNodes
    ensures |PlacesOf(hash, node, count)| == count
  {
    if count > 0 {
      PlacesApart(hash, nodeCount, virtualNodes, node, count - 1);
      NewPlace(hash, nodeCount, virtualNodes, node, count - 1);
      OnePlaceMore(hash, node, count - 1);
    } else {
      assert PlacesOf(hash, node, 0) == {};
    }
  }

  /** Where the hash separates the virtual points, every node owns as many points as it was given. */
  lemma EveryNodeOwnsItsShare(hash: Hash, points: map<Point, nat>, nodeCount: nat, virtualNodes: nat, node: nat)
    requires IsRing(hash, points, nodeCount, virtualNodes) && Separates(hash, nodeCount, virtualNodes)
    requires node < nodeCount
    ensures |PointsOf(points, node)| == virtualNodes
  {
    PlacesApart(hash, nodeCount, virtualNodes, node, virtualNodes);
    forall p | p in PlacesOf(hash, node, virtualNodes) ensures p in PointsOf(points, node) {
      assert Places(hash, node, virtualNodes, p) && p in points && Places(hash, points[p], virtualNodes, p);
      var r: nat :| r < virtualNodes && hash(ReplicaKey(node, r)) == p;
      var q: nat :| q < virtualNodes && hash(ReplicaKey(points[p], q)) == p;
      ReplicaKeyIsInjective(node, r, points[p], q);
    }
    assert PointsOf(points, node) == PlacesOf(hash, node, virtualNodes);
  }

  ghost function Least(s: set<Point>): (m: Point)
    requires s != {}
    ensures m in s && forall q | q in s :: m <= q
  {
    var x :| x in s;
    if s == {x} then x else
      var y := Least(s - {x});
      assert forall q | q in s :: q == x || q in s - {x};
      if x <= y then x else y
  }

  ghost function AtOrAfter(points: map<Point, nat>, point: Point): set<Point> {
    set p | p in points && point <= p
  }

  /** `node_for` once the key is hashed: the first point at or after it, else the first point of all, else 0. */
  ghost function NodeAt(points: map<Point, nat>, point: Point): nat {
    if AtOrAfter(points, point) != {} then points[Least(AtOrAfter(points, point))]
    else if points != map[] then points[Least(points.Keys)]
    else 0
  }

  ghost function NodeFor(hash: Hash, ring: Ring, key: string): nat {
    NodeAt(ring.points, hash(key))
  }

  /** The distance walked clockwise from `a` to `b` on the 64-bit circle. */
  function Clockwise(a: Point, b: Point): nat {
    if a <= b then b - a else U64_MAX + 1 - a + b
  }

  /** `p` is the first point met walking clockwise from `from`. */
  ghost predicate NearestClockwise(points: map<Point, nat>, from: Point, p: Point) {
    p in points && forall q | q in points :: Clockwise(from, p) <= Clockwise(from, q)
  }

  /** `node_for` answers with the owner of the nearest point clockwise, wrap-around included. */
  lemma NodeAtIsNearest(points: map<Point, nat>, from: Point) returns (p: Point)
    requires points != map[]
    ensures NearestClockwise(points, from, p) && NodeAt(points, from) == points[p]
  {
    var after := AtOrAfter(points, from);
    if after != {} {
      p := Least(after);
      forall q | q in points ensures Clockwise(from, p) <= Clockwise(from, q) {
        assert from <= q ==> q in after;
      }
    } else {
      p := Least(points.Keys);
      forall q | q in points ensures Clockwise(from, p) <= Clockwise(from, q) {
        assert q !in after;
      }
    }
  }

  lemma NearestIsUnique(points: map<Point, nat>, from: Point, p: Point, q: Point)
    requires NearestClockwise(points, from, p) && NearestClockwise(points, from, q)
    ensures p == q
  {
  }

  /** With at least one node and one virtual point, every key lands on an existing node. */
  lemma NodeForInRange(hash: Hash, ring: Ring, virtualNodes: nat, key: string)
    requires IsRing(hash, ring.points, ring.nodeCount, virtualNodes)
    requires ring.nodeCount > 0 && virtualNodes > 0
    ensures NodeFor(hash, ring, key) < ring.nodeCount
  {
  }

  /** The larger ring holds every point of the smaller one, and gives up a point only to a new node. */
  lemma LargerRingExtends(hash: Hash, small: map<Point, nat>, large: map<Point, nat>, n: nat, m: nat, v: nat)
    requires n <= m && IsRing(hash, small, n, v) && IsRing(hash, large, m, v)
    ensures forall p | p in small :: p in large
    ensures forall p | p in large && large[p] < n :: p in small && small[p] == large[p]
  {
  }

  /**
   * Minimal disruption: growing the ring from n to m nodes moves a key only onto a new node, for any hash
   * function and whatever points collide.
   */
  lemma MinimalDisruption(hash: Hash, small: Ring, large: Ring, virtualNodes: nat, key: string)
    requires small.nodeCount <= large.nodeCount
    requires IsRing(hash, small.points, small.nodeCount, virtualNodes)
    requires IsRing(hash, large.points, large.nodeCount, virtualNodes)
    ensures NodeFor(hash, large, key) == NodeFor(hash, small, key) || NodeFor(hash, large, key) >= small.nodeCount
  {
    LargerRingExtends(hash, small.points, large.points, small.nodeCount, large.nodeCount, virtualNodes);
    if large.points != map[] {
      var p := NodeAtIsNearest(large.points, hash(key));
      if large.points[p] < small.nodeCount {
        assert p in small.points;
        var q := NodeAtIsNearest(small.points, hash(key));
        assert NearestClockwise(small.points, hash(key), p);
        NearestIsUnique(small.points, hash(key), p, q);
      }
    } else {
      assert small.points.Keys == {};
    }
  }

  /** Two rings built with the same parameters answer alike: the insertion order leaves no trace. */
  lemma RingIsDetermined(hash: Hash, a: map<Point, nat>, b: map<Point, nat>, n: nat, v: nat)
    requires IsRing(hash, a, n, v) && IsRing(hash, b, n, v)
    ensures a == b
  {
  }
}
