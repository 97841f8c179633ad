/** Small types and facts shared by the other modules. */
module Common {
  datatype Option<+T> = None | Some(value: T)

  /** The largest value of the source's `u64`. */
  const U64_MAX: nat := 0xFFFF_FFFF_FFFF_FFFF

  /** `u64::saturating_add`. */
  function SaturatingAdd(a: nat, b: nat): nat {
    if a + b <= U64_MAX then a + b else U64_MAX
  }

  function Max(a: int, b: int): int {
    if a < b then b else a
  }

  lemma SubsetCardinality<T>(a: set<T>, b: set<T>)
    requires a <= b
    ensures |a| <= |b|
  {
    assert b == a + (b - a);
  }

  /** Two distinct members make a set of at least two. */
  lemma TwoMembers<T>(s: set<T>, x: T, y: T)
    requires x in s && y in s && x != y
    ensures 2 <= |s|
  {
    SubsetCardinality({x, y}, s);
  }
}
