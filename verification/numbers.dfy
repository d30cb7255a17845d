/**
 * Python's `int()` conversion on the two kinds of value the tilings truncate:
 * a plain ratio, and a ratio times sqrt 3.  `int()` truncates toward zero.
 */
module Numbers {

  /** Python's `int()` on a real: truncation toward zero. */
  function Trunc(r: real): (n: int)
    ensures 0.0 <= r ==> n >= 0 && n as real <= r < n as real + 1.0
    ensures r < 0.0 ==> n <= 0 && r <= n as real && (n as real) - 1.0 < r
  {
    if r >= 0.0 then r.Floor else -((-r).Floor)
  }

  /**
   * The largest m >= n with m^2 <= 3 q^2: the floor of q * sqrt3 when q >= 0,
   * found by counting up without ever forming sqrt3 itself.
   */
  function FloorRoot3From(q: real, n: nat): (m: nat)
    requires (n * n) as real <= 3.0 * q * q
    ensures n <= m
    ensures (m * m) as real <= 3.0 * q * q < ((m + 1) * (m + 1)) as real
    decreases (3.0 * q * q).Floor - n
  {
    if ((n + 1) * (n + 1)) as real <= 3.0 * q * q then
      assert n + 1 <= (n + 1) * (n + 1);
      FloorRoot3From(q, n + 1)
    else
      n
  }

  /**
   * Python's `int()` on the non-negative number q * sqrt3: its floor,
   * characterised without sqrt3 by n^2 <= 3 q^2 < (n+1)^2.
   */
  function TruncRoot3(q: real): (n: nat)
    requires q >= 0.0
    ensures (n * n) as real <= 3.0 * q * q < ((n + 1) * (n + 1)) as real
  {
    FloorRoot3From(q, 0)
  }

  /** For naturals, a < b exactly when a^2 < b^2. */
  lemma SquareLess(a: nat, b: nat)
    ensures a < b <==> a * a < b * b
  {
    if a < b {
      assert a * a <= a * b < b * b;
    } else {
      assert a * a >= a * b >= b * b;
    }
  }

  /** Squares on either side of a real bound order their roots. */
  lemma RootsBelow(a: nat, b: nat, r: real)
    requires (a * a) as real <= r < (b * b) as real
    ensures a < b
  {
    SquareLess(a, b);
  }

  /** (2a)^2 is four times a^2, also as a real. */
  lemma DoubleSquare(a: nat)
    ensures ((2 * a) * (2 * a)) as real == 4.0 * (a * a) as real
  {
    var aa := a * a;
    assert (2 * a) * (2 * a) == 4 * aa;
  }

  /** If n^2 <= r/4 < (n+1)^2 and m^2 <= r < (m+1)^2, then n is m div 2. */
  lemma HalfRoot(n: nat, m: nat, r: real)
    requires (n * n) as real <= r / 4.0 < ((n + 1) * (n + 1)) as real
    requires (m * m) as real <= r < ((m + 1) * (m + 1)) as real
    ensures n == m / 2
  {
    // (2n)^2 <= r < (m + 1)^2, so 2n <= m
    DoubleSquare(n);
    RootsBelow(2 * n, m + 1, r);
    // (2h)^2 <= m^2 <= r, so h^2 <= r / 4 < (n + 1)^2 and h <= n
    var h := m / 2;
    SquareLess(m, 2 * h);
    DoubleSquare(h);
    assert ((2 * h) * (2 * h)) as real <= (m * m) as real;
    RootsBelow(h, n + 1, r / 4.0);
  }

  /** Halving before or after truncation agrees: floor(q sqrt3 / 2) == floor(q sqrt3) div 2. */
  lemma TruncRoot3Half(q: real)
    requires q >= 0.0
    ensures TruncRoot3(q / 2.0) == TruncRoot3(q) / 2
  {
    assert 3.0 * (q / 2.0) * (q / 2.0) == (3.0 * q * q) / 4.0;
    HalfRoot(TruncRoot3(q / 2.0), TruncRoot3(q), 3.0 * q * q);
  }
}
