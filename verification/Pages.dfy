/** Page rounding and page sets. */
module Pages {
  import opened Wrappers

  const PAGE_SIZE: nat := 4096

  function AlignDown(x: nat): (r: nat)
    ensures r <= x < r + PAGE_SIZE && r % PAGE_SIZE == 0
  {
    x - x % PAGE_SIZE
  }

  /** Rounding up overflows when the addition of `PAGE_SIZE - 1` does. */
  function AlignUp(x: nat): (r: Option<nat>)
    ensures r.Some? <==> x + (PAGE_SIZE - 1) <= U64_MAX
    ensures r.Some? ==> r.value == RoundUp(x)
  {
    if x + (PAGE_SIZE - 1) > U64_MAX then None else Some(AlignDown(x + (PAGE_SIZE - 1)))
  }

  function RoundUp(x: nat): (r: nat)
    ensures x <= r < x + PAGE_SIZE && r % PAGE_SIZE == 0
  {
    AlignDown(x + (PAGE_SIZE - 1))
  }

  /** An aligned bound above `x` is above its rounding. */
  lemma RoundUpLeast(x: nat, bound: nat)
    requires x <= bound && bound % PAGE_SIZE == 0
    ensures RoundUp(x) <= bound
  {
  }

  lemma RoundUpShift(start: nat, length: nat)
    requires start % PAGE_SIZE == 0
    ensures start + RoundUp(length) == RoundUp(start + length)
  {
  }

  function Pow2(k: nat): (p: nat)
    ensures p > 0
  {
    if k == 0 then 1 else 2 * Pow2(k - 1)
  }

  /** The page numbers of an aligned interval. */
  function PageSet(lo: nat, hi: nat): (s: set<nat>)
    ensures forall p :: p in s <==> lo <= p < hi
    decreases hi - lo
  {
    if lo >= hi then {} else {lo} + PageSet(lo + 1, hi)
  }

  lemma {:induction false} PageSetSize(lo: nat, hi: nat)
    requires lo <= hi
    ensures |PageSet(lo, hi)| == hi - lo
    decreases hi - lo
  {
    if lo < hi {
      PageSetSize(lo + 1, hi);
      assert lo !in PageSet(lo + 1, hi);
    }
  }

  lemma DisjointUnionSize<T>(a: set<T>, b: set<T>)
    requires a !! b
    ensures |a + b| == |a| + |b|
  {
  }
}
