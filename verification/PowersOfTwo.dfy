/** std::bit_ceil, by which both hash tables size their bucket arrays. */
module PowersOfTwo {
  ghost predicate IsPowerOfTwo(n: nat) {
    n == 1 || (n > 1 && n % 2 == 0 && IsPowerOfTwo(n / 2))
  }

  function DoubleUntil(p: nat, n: nat): (r: nat)
    requires p >= 1
    ensures n <= r && (p <= r) && (p < n ==> r < 2 * n)
    ensures IsPowerOfTwo(p) ==> IsPowerOfTwo(r)
    decreases if p < n then n - p else 0
  {
    if n <= p then p else DoubleUntil(2 * p, n)
  }

  /** detail::NextPow2, that is std::bit_ceil: the least power of two not below n. */
  function NextPow2(n: nat): (r: nat)
    ensures IsPowerOfTwo(r) && n <= r && (n > 1 ==> r < 2 * n)
  {
    DoubleUntil(1, n)
  }

  /** No power of two from n on is smaller. */
  lemma NextPow2IsLeast(n: nat, p: nat)
    requires IsPowerOfTwo(p) && n <= p
    ensures NextPow2(n) <= p
  {
    DoublingStops(1, n, p);
  }

  lemma {:induction false} DoublingStops(q: nat, n: nat, p: nat)
    requires IsPowerOfTwo(q) && IsPowerOfTwo(p) && n <= p && q <= p
    ensures DoubleUntil(q, n) <= p
    decreases p - q
  {
    if q < n {
      DoubleStaysBelow(q, p);
      DoublingStops(2 * q, n, p);
    }
  }

  lemma PowerIsFixed(n: nat, p: nat)
    requires IsPowerOfTwo(n) && IsPowerOfTwo(p) && p <= n
    ensures DoubleUntil(p, n) == n
    decreases n - p
  {
    if p < n {
      DoubleStaysBelow(p, n);
      PowerIsFixed(n, 2 * p);
    }
  }

  lemma DoubleStaysBelow(p: nat, n: nat)
    requires IsPowerOfTwo(n) && IsPowerOfTwo(p) && p < n
    ensures 2 * p <= n && IsPowerOfTwo(2 * p)
  {
    if p > 1 {
      DoubleStaysBelow(p / 2, n / 2);
    }
  }
}
