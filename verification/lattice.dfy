/**
 * The index lattices the tilings walk.  Both tilings run two nested Python
 * `for` loops over integer ranges; `Grid(lo, hi, n)` lists the index pairs
 * (outer, inner) those loops visit, in visiting order, for an outer range
 * `range(lo, hi)` and an inner range `range(0, n)`.
 */
module Lattice {

  /** The inner loop for one outer index: (a, 0), (a, 1), ..., (a, n - 1). */
  function Row(a: int, n: nat): (cells: seq<(int, int)>)
    ensures |cells| == n
    ensures forall b :: 0 <= b < n ==> cells[b] == (a, b)
  {
    seq(n, b => (a, b))
  }

  /** One more pass of the inner loop visits (a, n) after the pairs before it. */
  lemma RowSnoc(before: seq<(int, int)>, a: int, n: nat)
    ensures before + Row(a, n + 1) == before + Row(a, n) + [(a, n)]
  {
    assert Row(a, n + 1) == Row(a, n) + [(a, n)];
  }

  /** All pairs visited by `for a in range(lo, hi): for b in range(n)`, in order. */
  function Grid(lo: int, hi: int, n: nat): seq<(int, int)>
    decreases hi - lo
  {
    if hi <= lo then [] else Grid(lo, hi - 1, n) + Row(hi - 1, n)
  }

  /** One more pass of the outer loop visits the row of hi after the pairs before it. */
  lemma GridSnoc(lo: int, hi: int, n: nat)
    requires lo <= hi
    ensures Grid(lo, hi + 1, n) == Grid(lo, hi, n) + Row(hi, n)
  {
  }

  /** The number of pairs: an empty outer range visits nothing. */
  lemma {:induction false} GridSize(lo: int, hi: int, n: nat)
    ensures |Grid(lo, hi, n)| == if hi <= lo then 0 else (hi - lo) * n
    decreases hi - lo
  {
    if lo < hi {
      GridSize(lo, hi - 1, n);
      assert (hi - 1 - lo) * n + n == (hi - lo) * n;
    }
  }

  /** Every pair of the two ranges is visited, at position (a - lo) * n + b. */
  lemma {:induction false} GridAt(lo: int, hi: int, n: nat, a: int, b: int)
    requires lo <= a < hi && 0 <= b < n
    ensures 0 <= (a - lo) * n + b < |Grid(lo, hi, n)|
    ensures Grid(lo, hi, n)[(a - lo) * n + b] == (a, b)
    decreases hi - lo
  {
    GridSize(lo, hi - 1, n);
    GridSize(lo, hi, n);
    var k := (a - lo) * n + b;
    if a == hi - 1 {
      assert k == |Grid(lo, hi - 1, n)| + b;
    } else {
      GridAt(lo, hi - 1, n, a, b);
      assert (a - lo) * n + b < (a - lo + 1) * n <= (hi - 1 - lo) * n;
    }
  }

  /** The quotient of a position below m * n by a positive n lies below m. */
  lemma QuotientBound(k: int, n: int, m: int)
    requires n > 0 && 0 <= k < m * n
    ensures 0 <= k / n < m
  {
  }

  /** Position k of the lattice holds the pair (lo + k / n, k % n): outer index first. */
  lemma GridIndex(lo: int, hi: int, n: nat, k: int)
    requires 0 <= k < |Grid(lo, hi, n)|
    ensures n > 0 && lo + k / n < hi
    ensures Grid(lo, hi, n)[k] == (lo + k / n, k % n)
  {
    GridSize(lo, hi, n);
    assert n > 0 && lo < hi;
    QuotientBound(k, n, hi - lo);
    GridAt(lo, hi, n, lo + k / n, k % n);
    assert (lo + k / n - lo) * n + k % n == k;
  }

  /** Splitting the outer range splits the visiting order into its two parts. */
  lemma {:induction false} GridSplit(lo: int, mid: int, hi: int, n: nat)
    requires lo <= mid <= hi
    ensures Grid(lo, hi, n) == Grid(lo, mid, n) + Grid(mid, hi, n)
    decreases hi - mid
  {
    if mid < hi {
      GridSplit(lo, mid, hi - 1, n);
    }
  }

  /** One outer index and one inner index: a single pair. */
  lemma GridOne(a: int)
    ensures Grid(a, a + 1, 1) == [(a, 0)]
  {
    assert Grid(a, a + 1, 1) == Grid(a, a, 1) + Row(a, 1);
    assert Row(a, 1)[0] == (a, 0);
  }
}
