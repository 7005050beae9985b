/**
 * Values of hw/virtio/virtio-iommu.c: fixed-width integers, the interval
 * keys of a domain's mapping tree with the comparator that orders them,
 * the integer comparator of the endpoint and domain trees, the status
 * codes of section 5.13 of the VIRTIO 1.2 specification and the access
 * and mapping flags.
 */
module IommuTypes {

  type u8 = x: int | 0 <= x < 0x100
  type u16 = x: int | 0 <= x < 0x1_0000
  type u32 = x: int | 0 <= x < 0x1_0000_0000
  type u64 = x: int | 0 <= x < 0x1_0000_0000_0000_0000

  const U64_MODULUS: int := 0x1_0000_0000_0000_0000

  /** uint64_t arithmetic wraps modulo 2^64. */
  function Wrap64(x: int): (r: u64)
    ensures 0 <= x < U64_MODULUS ==> r == x
    ensures (r - x) % U64_MODULUS == 0
  {
    x % U64_MODULUS
  }

  // ---------------------------------------------------------------------
  // Status codes (section 5.13.6 of VIRTIO 1.2)
  // ---------------------------------------------------------------------

  const S_OK: u8 := 0
  const S_IOERR: u8 := 1
  const S_UNSUPP: u8 := 2
  const S_DEVERR: u8 := 3
  const S_INVAL: u8 := 4
  const S_RANGE: u8 := 5
  const S_NOENT: u8 := 6
  const S_FAULT: u8 := 7

  // ---------------------------------------------------------------------
  // Intervals and mappings
  // ---------------------------------------------------------------------

  /** viommu_interval: the closed range [low, high] of virtual addresses. */
  datatype Interval = Interval(low: u64, high: u64)

  /** viommu_mapping: where an interval lands and with which MAP flags. */
  datatype Mapping = Mapping(physAddr: u64, flags: u32)

  predicate WellFormed(a: Interval) {
    a.low <= a.high
  }

  /** The closed intervals share an address. */
  predicate Overlap(a: Interval, b: Interval) {
    a.low <= b.high && b.low <= a.high
  }

  predicate Contains(a: Interval, addr: int) {
    a.low <= addr <= a.high
  }

  /** b lies within a. */
  predicate Within(b: Interval, a: Interval) {
    a.low <= b.low && b.high <= a.high
  }

  /** interval_cmp: below, above, or overlapping. */
  function IntervalCmp(a: Interval, b: Interval): (c: int)
    ensures c == -1 <==> a.high < b.low
    ensures c == 1 <==> b.high < a.low && !(a.high < b.low)
    ensures c == 0 <==> Overlap(a, b)
  {
    if a.high < b.low then -1
    else if b.high < a.low then 1
    else 0
  }

  /** On well-formed intervals the comparator is antisymmetric: a is below
      b exactly when b is above a. */
  lemma IntervalCmpAntisymmetric(a: Interval, b: Interval)
    requires WellFormed(a) && WellFormed(b)
    ensures IntervalCmp(a, b) == -IntervalCmp(b, a)
  {
  }

  /** The comparator is transitive on well-formed intervals: below is a
      strict order, so disjoint intervals sit in a search tree in order. */
  lemma IntervalCmpTransitive(a: Interval, b: Interval, c: Interval)
    requires WellFormed(b)
    requires IntervalCmp(a, b) == -1 && IntervalCmp(b, c) == -1
    ensures IntervalCmp(a, c) == -1
  {
  }

  /** A well-formed interval compares equal to itself; an inverted one
      compares below itself, so a tree search for it never stops at it. */
  lemma IntervalCmpSelf(a: Interval)
    ensures WellFormed(a) <==> IntervalCmp(a, a) == 0
    ensures !WellFormed(a) ==> IntervalCmp(a, a) == -1
  {
  }

  /** [x, x] overlaps exactly the intervals that hold x. */
  lemma PointOverlap(x: u64, k: Interval)
    ensures Overlap(Interval(x, x), k) <==> Contains(k, x)
  {
  }

  /** int_cmp: (a > b) - (a < b) on the unsigned ids of the endpoint and
      domain trees. */
  function IntCmp(a: u32, b: u32): (c: int)
    ensures c == -1 <==> a < b
    ensures c == 0 <==> a == b
    ensures c == 1 <==> a > b
  {
    (if a > b then 1 else 0) - (if a < b then 1 else 0)
  }

  /** int_cmp is a total order consistent with equality, so a tree keyed
      by it behaves as a map from ids. */
  lemma IntCmpTotalOrder(a: u32, b: u32, c: u32)
    ensures IntCmp(a, b) == -IntCmp(b, a)
    ensures IntCmp(a, b) == -1 && IntCmp(b, c) == -1 ==> IntCmp(a, c) == -1
    ensures IntCmp(a, b) == 0 ==> a == b
  {
  }

  // ---------------------------------------------------------------------
  // A domain's mapping tree
  // ---------------------------------------------------------------------

  /** The invariant the tree's comparator needs: every key is well formed
      and no two keys overlap. */
  predicate Disjoint(m: map<Interval, Mapping>) {
    && (forall k :: k in m ==> WellFormed(k))
    && (forall k1, k2 :: k1 in m && k2 in m && k1 != k2 ==> IntervalCmp(k1, k2) != 0)
  }

  /** Some key of the tree overlaps q: what g_tree_lookup with
      interval_cmp finds. */
  predicate HasOverlap(m: map<Interval, Mapping>, q: Interval) {
    exists k :: k in m && Overlap(k, q)
  }

  /** In a disjoint tree the only key overlapping a key is the key itself,
      so removing a key through the comparator removes exactly it. */
  lemma OnlySelfOverlaps(m: map<Interval, Mapping>, k: Interval, k2: Interval)
    requires Disjoint(m) && k in m && k2 in m
    ensures Overlap(k2, k) <==> k2 == k
  {
  }

  /** A point lies in at most one key of a disjoint tree. */
  lemma PointInOneKey(m: map<Interval, Mapping>, addr: u64, k1: Interval, k2: Interval)
    requires Disjoint(m) && k1 in m && k2 in m
    requires Contains(k1, addr) && Contains(k2, addr)
    ensures k1 == k2
  {
  }

  /** Inserting a well-formed interval that overlaps no key keeps the tree
      disjoint. */
  lemma InsertKeepsDisjoint(m: map<Interval, Mapping>, k: Interval, v: Mapping)
    requires Disjoint(m) && WellFormed(k) && !HasOverlap(m, k)
    ensures Disjoint(m[k := v])
  {
    forall k1, k2 | k1 in m[k := v] && k2 in m[k := v] && k1 != k2
      ensures IntervalCmp(k1, k2) != 0
    {
      if k1 == k {
        assert !Overlap(k2, k);
      } else if k2 == k {
        assert !Overlap(k1, k);
      }
    }
  }

  /** Removing keys keeps the tree disjoint. */
  lemma RemoveKeepsDisjoint(m: map<Interval, Mapping>, k: Interval)
    requires Disjoint(m)
    ensures Disjoint(m - {k})
  {
  }
}
