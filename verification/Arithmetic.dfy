/** Facts about products and remainders that proofs name rather than leave to the solver. */
module Arithmetic {
  lemma Associate(x: int, y: int, z: int)
    ensures x * (y * z) == (x * y) * z
  {
  }

  lemma Distribute(x: int, y: int, z: int)
    ensures (x + y) * z == x * z + y * z
    ensures (x - y) * z == x * z - y * z
  {
  }

  lemma MulMonotonic(x: int, y: int, z: int)
    requires x <= y && 0 <= z
    ensures x * z <= y * z
  {
  }

  /** A remainder does not change when a multiple of the modulus is added. */
  lemma AddMultiple(x: int, k: int, m: int)
    requires m > 0
    ensures (x + k * m) % m == x % m
  {
    var q, q' := x / m, (x + k * m) / m;
    var r, r' := x % m, (x + k * m) % m;
    assert (q' - q - k) * m == r - r' by {
      Distribute(q' - q, k, m);
      Distribute(q', q, m);
    }
    if q' - q - k >= 1 {
      MulMonotonic(1, q' - q - k, m);
    } else if q' - q - k <= -1 {
      MulMonotonic(q' - q - k, -1, m);
    }
  }

  /** Congruent numbers are a multiple of the modulus apart. */
  lemma Apart(x: int, y: int, m: int) returns (k: int)
    requires m > 0 && x % m == y % m
    ensures x == y + k * m
  {
    k := x / m - y / m;
    Distribute(x / m, y / m, m);
  }

  lemma AddCongruent(x: int, y: int, u: int, v: int, m: int)
    requires m > 0 && x % m == y % m && u % m == v % m
    ensures (x + u) % m == (y + v) % m
  {
    var k := Apart(x, y, m);
    var l := Apart(u, v, m);
    SumsApart(x, y, u, v, k, l, m);
  }

  lemma SumsApart(x: int, y: int, u: int, v: int, k: int, l: int, m: int)
    requires m > 0 && x == y + k * m && u == v + l * m
    ensures (x + u) % m == (y + v) % m
  {
    Distribute(k, l, m);
    AddMultiple(y + v, k + l, m);
  }

  lemma ProductIsNatural(x: int, y: int)
    requires x >= 0 && y >= 0
    ensures x * y >= 0
  {
  }
}
