/** BigInt values and their signed operators.  The operators of the source are const members that
    return a new object, so a BigInt is a value here. */
module BigIntSigned {
  import opened Arithmetic
  import opened MachineWords
  import opened BigIntLimbs
  import opened BigIntDigits

  ghost function Signed(negative: bool, magnitude: int): int {
    if negative then -magnitude else magnitude
  }

  datatype BigInt = BigInt(digits: seq<UInt32>, negative: bool) {
    predicate IsZero() {
      digits == [0]
    }

    function Abs(): BigInt {
      BigInt(digits, false)
    }

    /** The magnitude denoted by the limbs. */
    ghost function Magnitude(): nat {
      Value(digits)
    }

    /** The integer denoted. */
    ghost function ToInt(): int {
      Signed(negative, Magnitude())
    }

    /** Only the text of a lone minus sign makes a number without limbs. */
    predicate HasLimbs() {
      digits != []
    }

    /** What every operator keeps: trimmed, limbs below the base. */
    ghost predicate Sound() {
      IsLimbs(digits) && Trimmed(digits)
    }

    ghost predicate Valid() {
      Sound() && HasLimbs()
    }

    /** Valid, and zero carries no sign: the form on which `==` and `<` mean what they say. */
    ghost predicate Canonical() {
      Valid() && (Magnitude() == 0 ==> !negative)
    }
  }

  /** Limb equality is numeric zero test on valid values. */
  lemma ZeroTest(a: BigInt)
    requires a.Valid()
    ensures a.IsZero() <==> a.Magnitude() == 0
  {
    if a.Magnitude() == 0 {
      ZerosDenoteZero([0], 1);
      TrimmedIsUnique(a.digits, [0]);
    } else {
      ZerosDenoteZero([0], 1);
    }
  }

  // ----- constructors from machine integers

  /** The digit loop shared by the integer constructors. */
  method FromUInt64(value: UInt64) returns (r: BigInt)
    ensures r.Canonical() && r.ToInt() == value
  {
    if value == 0 {
      ZerosDenoteZero([0], 1);
      return BigInt([0], false);
    }
    var digits: seq<UInt32> := [];
    var rest: UInt64 := value;
    while rest > 0
      invariant IsLimbs(digits) && Value(digits) + rest * Power(|digits|) == value
      invariant rest == 0 ==> |digits| >= 1 && digits[|digits| - 1] != 0
      decreases rest
    {
      ValueOfAppend(digits, rest % BASE);
      CarryStep(Value(digits), rest, rest % BASE, rest / BASE, Power(|digits|));
      digits := digits + [rest % BASE];
      rest := rest / BASE;
    }
    r := BigInt(digits, false);
  }

  /** BigInt(Int64); the magnitude of the most negative value is formed without overflow. */
  method FromInt64(value: Int64) returns (r: BigInt)
    ensures r.Canonical() && r.ToInt() == value
  {
    var negative := value < 0;
    var absval: UInt64;
    if value < 0 {
      var shifted: Int64 := -(value + 1);
      absval := shifted + 1;
    } else {
      absval := value;
    }
    var magnitude := FromUInt64(absval);
    r := BigInt(magnitude.digits, negative);
  }

  // ----- comparison

  /** Compares sizes first and then limbs from the top, as the source does. */
  method AbsLess(a: BigInt, b: BigInt) returns (less: bool)
    requires a.Sound() && b.Sound()
    ensures a.HasLimbs() && b.HasLimbs() ==> (less <==> a.Magnitude() < b.Magnitude())
    ensures !a.HasLimbs() || !b.HasLimbs() ==> (less <==> |a.digits| < |b.digits|)
    ensures if less then a.Magnitude() <= b.Magnitude() else b.Magnitude() <= a.Magnitude()
  {
    if !a.HasLimbs() || !b.HasLimbs() {
      LowBound(a.digits, |a.digits|);
      LowBound(b.digits, |b.digits|);
      return |a.digits| < |b.digits|;
    }
    if |a.digits| != |b.digits| {
      LowBound(a.digits, |a.digits|);
      LowBound(b.digits, |b.digits|);
      if |a.digits| < |b.digits| {
        TrimmedLowerBound(b.digits);
        PowerMonotonic(|a.digits|, |b.digits| - 1);
      } else {
        TrimmedLowerBound(a.digits);
        PowerMonotonic(|b.digits|, |a.digits| - 1);
      }
      return |a.digits| < |b.digits|;
    }
    var i := |a.digits| - 1;
    while i >= 0
      invariant -1 <= i < |a.digits|
      invariant forall k :: i < k < |a.digits| ==> a.digits[k] == b.digits[k]
    {
      if a.digits[i] != b.digits[i] {
        if a.digits[i] < b.digits[i] {
          TopLimbDecides(a.digits, b.digits, |a.digits|, i);
        } else {
          TopLimbDecides(b.digits, a.digits, |a.digits|, i);
        }
        return a.digits[i] < b.digits[i];
      }
      i := i - 1;
    }
    assert a.digits == b.digits;
    return false;
  }

  /** operator<: numeric order whenever neither operand is a zero with its sign flag set.  A number without limbs
      is the smallest magnitude, smaller than zero. */
  method Less(a: BigInt, b: BigInt) returns (less: bool)
    requires a.Sound() && b.Sound()
    ensures a.Canonical() && b.Canonical() ==> (less <==> a.ToInt() < b.ToInt())
    ensures a.negative != b.negative ==> less == a.negative
    ensures a.negative == b.negative && a.HasLimbs() && b.HasLimbs() ==> (less <==> a.ToInt() < b.ToInt())
    ensures a.negative == b.negative && !(a.HasLimbs() && b.HasLimbs()) ==>
              (less <==> if a.negative then !b.HasLimbs() && a.HasLimbs() else !a.HasLimbs() && b.HasLimbs())
  {
    if a.negative != b.negative {
      return a.negative;
    }
    if a.negative {
      less := AbsLess(b, a);
    } else {
      less := AbsLess(a, b);
    }
  }

  /** operator<=, defined by the source as !(b < a). */
  method LessOrEqual(a: BigInt, b: BigInt) returns (r: bool)
    requires a.Sound() && b.Sound()
    ensures a.Canonical() && b.Canonical() ==> (r <==> a.ToInt() <= b.ToInt())
    ensures a.negative != b.negative ==> r == a.negative
    ensures a.negative == b.negative && a.HasLimbs() && b.HasLimbs() ==> (r <==> a.ToInt() <= b.ToInt())
    ensures a.negative == b.negative && !(a.HasLimbs() && b.HasLimbs()) ==>
              (r <==> if a.negative then a.HasLimbs() || !b.HasLimbs() else !a.HasLimbs() || b.HasLimbs())
  {
    var greater := Less(b, a);
    r := !greater;
  }

  /** operator== compares flag and limbs; on canonical values this is equality of integers. */
  lemma EqualityIsNumeric(a: BigInt, b: BigInt)
    requires a.Canonical() && b.Canonical()
    ensures a == b <==> a.ToInt() == b.ToInt()
  {
    if a.ToInt() == b.ToInt() {
      TrimmedIsUnique(a.digits, b.digits);
    }
  }

  /** For all operands operator== is numeric equality except on two zeros that differ in their flags or of which
      only one has limbs. */
  lemma EqualityExactly(a: BigInt, b: BigInt)
    requires a.Sound() && b.Sound()
    ensures (a == b <==> a.ToInt() == b.ToInt()) <==>
            !(a.Magnitude() == 0 && b.Magnitude() == 0 && (a.negative != b.negative || a.HasLimbs() != b.HasLimbs()))
  {
    if a.HasLimbs() {
      ZeroTest(a);
    }
    if b.HasLimbs() {
      ZeroTest(b);
    }
    if a.ToInt() == b.ToInt() && a.HasLimbs() && b.HasLimbs() {
      TrimmedIsUnique(a.digits, b.digits);
    }
  }

  // ----- operators

  /** Unary minus; it also clears the flag of a zero. */
  function Negate(a: BigInt): (r: BigInt)
    requires a.Sound()
    ensures r.Sound() && r.digits == a.digits && r.ToInt() == -a.ToInt()
    ensures a.HasLimbs() ==> r.Canonical()
  {
    if a.HasLimbs() then
      ZeroTest(a);
      BigInt(a.digits, if a.IsZero() then false else !a.negative)
    else
      BigInt(a.digits, !a.negative)
  }

  /** operator+ and operator- call each other on operands of different sign, at most twice. */
  method Add(a: BigInt, b: BigInt) returns (r: BigInt)
    requires a.Sound() && b.Sound()
    ensures r.Sound() && r.ToInt() == a.ToInt() + b.ToInt()
    ensures a.HasLimbs() || b.HasLimbs() ==> r.HasLimbs()
    ensures a.Canonical() && b.Canonical() ==> r.Canonical()
    ensures !a.negative && !b.negative ==> !r.negative
    decreases if a.negative == b.negative then 0 else 1
  {
    if a.negative == b.negative {
      var digits := AddDigits(a.digits, b.digits);
      digits := Strip(digits);
      return BigInt(digits, a.negative);
    }
    if a.negative {
      r := Subtract(b, Negate(a));
    } else {
      r := Subtract(a, Negate(b));
    }
  }

  method Subtract(a: BigInt, b: BigInt) returns (r: BigInt)
    requires a.Sound() && b.Sound()
    ensures r.Sound() && r.ToInt() == a.ToInt() - b.ToInt()
    ensures a.HasLimbs() || b.HasLimbs() ==> r.HasLimbs()
    ensures a.Canonical() && b.Canonical() ==> (r.Canonical() <==> !(a.ToInt() == b.ToInt() && a.ToInt() < 0))
    ensures !a.negative && !b.negative && b.Magnitude() <= a.Magnitude() && (b.HasLimbs() ==> a.HasLimbs()) ==>
              !r.negative
    decreases if a.negative == b.negative then 0 else 1
  {
    if a.negative == b.negative {
      var less := AbsLess(a, b);
      var digits;
      if less {
        digits := SubtractDigits(b.digits, a.digits);
      } else {
        digits := SubtractDigits(a.digits, b.digits);
      }
      digits := Strip(digits);
      return BigInt(digits, if less then !a.negative else a.negative);
    }
    if a.negative {
      var sum := Add(Negate(a), b);
      r := Negate(sum);
    } else {
      r := Add(a, Negate(b));
    }
  }

  /** operator*.  The result is canonical unless a zero factor meets a negative one. */
  method Multiply(a: BigInt, b: BigInt) returns (r: BigInt)
    requires a.Sound() && b.Sound()
    ensures r.Sound() && r.ToInt() == a.ToInt() * b.ToInt()
    ensures a.HasLimbs() || b.HasLimbs() ==> r.HasLimbs()
    ensures r.Magnitude() == a.Magnitude() * b.Magnitude()
    ensures r.negative == (a.negative != b.negative)
    ensures a.Canonical() && b.Canonical() ==>
              (r.Canonical() <==> !(a.ToInt() == 0 && b.ToInt() < 0) && !(b.ToInt() == 0 && a.ToInt() < 0))
  {
    var digits := MultiplyDigits(a.digits, b.digits);
    digits := Strip(digits);
    r := BigInt(digits, a.negative != b.negative);
    SignedProduct(a.Magnitude(), b.Magnitude(), a.negative, b.negative);
  }

  lemma SignedProduct(x: int, y: int, negX: bool, negY: bool)
    requires x >= 0 && y >= 0
    ensures Signed(negX, x) * Signed(negY, y) == Signed(negX != negY, x * y)
    ensures x * y == 0 <==> x == 0 || y == 0
  {
    if x > 0 && y > 0 {
      MulMonotonic(1, x, y);
    }
    if x == 0 || y == 0 {
      assert x * y == 0;
    }
    assert (-x) * y == -(x * y) && x * (-y) == -(x * y) && (-x) * (-y) == x * y;
  }
}
