/** DivMod and the operators / and % of BigInt, against truncated integer division. */
module BigIntOperators {
  import opened MachineWords
  import opened BigIntLimbs
  import opened BigIntSigned
  import opened BigIntDivision

  datatype Result<T> = Ok(value: T) | DivisionByZero

  ghost function Magnitude(x: int): nat {
    if x < 0 then -x else x
  }

  /** Quotient rounded toward zero, as C++ integer division. */
  ghost function Truncated(x: int, y: int): int
    requires y != 0
  {
    Signed((x < 0) != (y < 0), Magnitude(x) / Magnitude(y))
  }

  /** The remainder that belongs to the truncated quotient. */
  ghost function Remainder(x: int, y: int): int
    requires y != 0
  {
    x - y * Truncated(x, y)
  }

  /** It is smaller than the divisor and has the sign of the dividend. */
  lemma RemainderHasDividendSign(x: int, y: int)
    requires y != 0
    ensures Remainder(x, y) == Signed(x < 0, Magnitude(x) % Magnitude(y))
  {
    var q, m := Magnitude(x) / Magnitude(y), Magnitude(y);
    assert Magnitude(x) == m * q + Magnitude(x) % m;
    assert y * (-q) == -(y * q) && (-y) * q == -(y * q);
  }

  /** The operands on which division returns.  A divisor without limbs is not recognised as zero, and repeated
      subtraction, which short dividends are sent to, subtracts nothing from them for ever. */
  predicate Returns(a: BigInt, b: BigInt) {
    b.HasLimbs() || a.IsZero() || |a.digits| > 4
  }

  /** The operands that division refuses as a division by zero. */
  predicate Refuses(a: BigInt, b: BigInt) {
    b.IsZero() || (!b.HasLimbs() && |a.digits| >= 256)
  }

  /** BigInt(5) / BigInt("-") does not return. */
  lemma LoneMinusDivisor()
    ensures !Returns(BigInt([5], false), BigInt([], true))
  {
  }

  /** The dispatcher, with at most the given number of passes of repeated subtraction: on the other operands it is
      still in that loop, however many passes it is given. */
  method StillDividing(a: BigInt, b: BigInt, passes: nat) returns (stillDividing: bool)
    requires a.Sound() && b.Sound() && !Returns(a, b)
    ensures stillDividing
  {
    if b.IsZero() || a.IsZero() {
      return false;
    }
    var less := AbsLess(a.Abs(), b.Abs());
    var n, m := |a.digits|, |b.digits|;
    if less || m == 1 || n > 4 || m > 4 {
      return false;
    }
    var q, r;
    q, r, less := NaivePasses(a, b, passes);
    return !less;
  }

  /** What division computes.  With a divisor that has limbs: the truncated quotient, and the remainder of the
      magnitudes, except that a dividend smaller than the divisor is handed back with its own sign.  With a
      divisor without limbs, of a dividend of five limbs or more: all nines, and the dividend's magnitude. */
  ghost predicate Divided(a: BigInt, b: BigInt, q: BigInt, r: BigInt) {
    && q.Canonical() && r.Sound() && (a.HasLimbs() ==> r.HasLimbs())
    && if b.HasLimbs() then
         && b.Magnitude() > 0 && q.ToInt() == Truncated(a.ToInt(), b.ToInt())
         && r.Magnitude() == a.Magnitude() % b.Magnitude()
         && (r.negative <==> a.negative && !a.IsZero() && a.Magnitude() < b.Magnitude())
       else if a.IsZero() then
         q.ToInt() == r.ToInt() == 0 && !r.negative
       else
         && q.ToInt() == Signed(a.negative != b.negative, Power(|a.digits|) - 1)
         && r.Magnitude() == a.Magnitude() && !r.negative
  }

  method DivMod(a: BigInt, b: BigInt) returns (res: Result<(BigInt, BigInt)>)
    requires a.Sound() && b.Sound() && Returns(a, b)
    ensures res.DivisionByZero? <==> Refuses(a, b)
    ensures b.HasLimbs() ==> (res.DivisionByZero? <==> b.ToInt() == 0)
    ensures res.Ok? ==> Divided(a, b, res.value.0, res.value.1)
  {
    if b.HasLimbs() {
      ZeroTest(b);
    }
    if b.IsZero() {
      return DivisionByZero;
    }
    var zero := FromUInt64(0);
    NonNegative(zero);
    if a.IsZero() {
      ZeroDividend(a, b, zero);
      return Ok((zero, zero));
    }
    var less := AbsLess(a.Abs(), b.Abs());
    if less {
      SmallDividend(a, b, zero);
      return Ok((zero, a));
    }
    var ok, q, r := Dispatch(a, b);
    if !ok {
      return DivisionByZero;
    }
    if b.HasLimbs() {
      SignQuotient(a, b, q, r);
    } else {
      SignNines(a, b, q, r);
    }
    q := BigInt(q.digits, a.negative != b.negative && !q.IsZero());
    return Ok((q, r));
  }

  lemma ZeroDividend(a: BigInt, b: BigInt, zero: BigInt)
    requires a.IsZero() && a.Sound() && b.Sound() && zero.Canonical() && zero.ToInt() == 0
    requires b.HasLimbs() ==> b.Magnitude() > 0
    ensures Divided(a, b, zero, zero)
  {
    ZeroTest(a);
    if b.HasLimbs() {
      QuotientOfSmaller(0, b.Magnitude());
    }
  }

  lemma QuotientOfSmaller(a: nat, b: nat)
    requires a < b
    ensures a / b == 0 && a % b == a
  {
  }

  lemma SmallDividend(a: BigInt, b: BigInt, zero: BigInt)
    requires a.Sound() && b.Valid() && b.Magnitude() > 0 && !a.IsZero() && zero.Canonical() && zero.ToInt() == 0
    requires a.Magnitude() < b.Magnitude()
    ensures Divided(a, b, zero, a)
  {
    QuotientOfSmaller(a.Magnitude(), b.Magnitude());
  }

  /** Signing the quotient of the magnitudes truncates toward zero. */
  lemma SignQuotient(a: BigInt, b: BigInt, q: BigInt, r: BigInt)
    requires a.Valid() && b.Valid() && 0 < b.Magnitude() <= a.Magnitude()
    requires q.Valid() && r.Valid() && !q.negative && !r.negative
    requires IsDivision(a.Magnitude(), b.Magnitude(), q.Magnitude(), r.Magnitude())
    ensures Divided(a, b, BigInt(q.digits, a.negative != b.negative && !q.IsZero()), r)
  {
    ZeroTest(q);
    DivisionIsUnique(a.Magnitude(), b.Magnitude(), q.Magnitude(), r.Magnitude(),
                     a.Magnitude() / b.Magnitude(), a.Magnitude() % b.Magnitude());
  }

  lemma SignNines(a: BigInt, b: BigInt, q: BigInt, r: BigInt)
    requires a.Valid() && b.Sound() && !b.HasLimbs() && |a.digits| > 4
    requires q.Valid() && r.Valid() && !q.negative && !r.negative
    requires q.Magnitude() == Power(|a.digits|) - 1 && r.Magnitude() == a.Magnitude()
    ensures Divided(a, b, BigInt(q.digits, a.negative != b.negative && !q.IsZero()), r)
  {
    ZeroTest(q);
    PowerMonotonic(1, |a.digits|);
  }

  /** The choice of algorithm by operand size. */
  method Dispatch(a: BigInt, b: BigInt) returns (ok: bool, q: BigInt, r: BigInt)
    requires a.Valid() && b.Sound()
    requires if b.HasLimbs() then 0 < b.Magnitude() <= a.Magnitude() else |a.digits| > 4
    ensures ok <==> !Refuses(a, b)
    ensures q.Valid() && r.Valid() && !q.negative && !r.negative
    ensures b.HasLimbs() ==> IsDivision(a.Magnitude(), b.Magnitude(), q.Magnitude(), r.Magnitude())
    ensures ok && !b.HasLimbs() ==> q.Magnitude() == Power(|a.digits|) - 1 && r.Magnitude() == a.Magnitude()
  {
    var n, m := |a.digits|, |b.digits|;
    ok := true;
    if b.HasLimbs() {
      ZeroTest(b);
    }
    if m == 1 {
      assert b.digits == [b.digits[0]];
      SingleLimb(b.digits[0]);
      q, r := DivModBySingleLimb(a, b.digits[0]);
    } else if n <= 4 && m <= 4 {
      q, r := NaiveDivMod(a, b);
    } else if n < 256 && m < 256 {
      q, r := KnuthDivMod(a, b);
    } else {
      ok, q, r := FastDivMod(a, b);
      if !ok {
        r := q;
      }
    }
  }

  lemma SingleLimb(x: UInt32)
    ensures Value([x]) == x
  {
    ValueOfAppend([], x);
    assert [] + [x] == [x];
  }

  /** operator/ truncates toward zero; its result is always canonical. */
  method Divide(a: BigInt, b: BigInt) returns (res: Result<BigInt>)
    requires a.Sound() && b.Sound() && Returns(a, b)
    ensures res.DivisionByZero? <==> Refuses(a, b)
    ensures b.HasLimbs() ==> (res.DivisionByZero? <==> b.ToInt() == 0)
    ensures res.Ok? ==> res.value.Canonical()
    ensures res.Ok? && b.HasLimbs() ==> b.ToInt() != 0 && res.value.ToInt() == Truncated(a.ToInt(), b.ToInt())
    ensures res.Ok? && !b.HasLimbs() ==>
              res.value.ToInt() == if a.IsZero() then 0 else Signed(a.negative != b.negative, Power(|a.digits|) - 1)
  {
    var qr := DivMod(a, b);
    match qr {
      case DivisionByZero => res := DivisionByZero;
      case Ok(p) => res := Ok(p.0);
    }
  }

  /** operator% negates a remainder that already carries the sign when the dividend is negative and
      smaller than the divisor: it is the truncated remainder exactly outside that case.  Modulo a number
      without limbs it gives the dividend back. */
  method Modulo(a: BigInt, b: BigInt) returns (res: Result<BigInt>)
    requires a.Sound() && b.Sound() && Returns(a, b)
    ensures res.DivisionByZero? <==> Refuses(a, b)
    ensures b.HasLimbs() ==> (res.DivisionByZero? <==> b.ToInt() == 0)
    ensures res.Ok? ==> res.value.Sound() && (a.HasLimbs() ==> res.value.HasLimbs())
    ensures res.Ok? && b.HasLimbs() ==>
              b.ToInt() != 0 && Magnitude(res.value.ToInt()) == Magnitude(Remainder(a.ToInt(), b.ToInt()))
    ensures res.Ok? && b.HasLimbs() ==>
              (res.value.ToInt() == Remainder(a.ToInt(), b.ToInt()) <==>
               !(a.ToInt() < 0 && Magnitude(a.ToInt()) < Magnitude(b.ToInt())))
    ensures res.Ok? && !b.HasLimbs() ==> res.value.ToInt() == a.ToInt()
  {
    var qr := DivMod(a, b);
    match qr {
      case DivisionByZero =>
        res := DivisionByZero;
      case Ok(p) =>
        var remainder := p.1;
        SignRemainder(a, b, p.0, remainder);
        if a.negative && !remainder.IsZero() {
          remainder := Negate(remainder);
        }
        res := Ok(remainder);
    }
  }

  lemma SignRemainder(a: BigInt, b: BigInt, q: BigInt, r: BigInt)
    requires a.Sound() && b.Sound() && Divided(a, b, q, r)
    ensures var x := if a.negative && !r.IsZero() then -r.ToInt() else r.ToInt();
            if b.HasLimbs() then
              && b.ToInt() != 0 && Magnitude(x) == Magnitude(Remainder(a.ToInt(), b.ToInt()))
              && (x == Remainder(a.ToInt(), b.ToInt()) <==>
                  !(a.ToInt() < 0 && Magnitude(a.ToInt()) < Magnitude(b.ToInt())))
            else
              x == a.ToInt()
  {
    if r.HasLimbs() {
      ZeroTest(r);
    }
    if a.HasLimbs() {
      ZeroTest(a);
    }
    if b.HasLimbs() {
      RemainderHasDividendSign(a.ToInt(), b.ToInt());
      RemainderBound(a.Magnitude(), b.Magnitude());
    }
  }

  lemma RemainderBound(a: nat, b: nat)
    requires b > 0
    ensures a % b < b && (a < b ==> a % b == a)
  {
  }
}
