/** AddDigits, SubtractDigits and MultiplyDigits of BigInt: loops over limb vectors, proved against
    plain arithmetic on the denoted numbers.  Intermediate results live in UInt32, UInt64 and Int64
    variables exactly where the source has them, so the proofs include the absence of wrap-around. */
module BigIntDigits {
  import opened Arithmetic
  import opened MachineWords
  import opened BigIntLimbs

  function Max(x: nat, y: nat): nat {
    if x < y then y else x
  }

  /** Limb i as the loops read it: zero past the end. */
  function Digit(s: seq<UInt32>, i: nat): (d: UInt32)
    ensures d == At(s, i)
  {
    if i < |s| then s[i] else 0
  }

  /** Dropping leading zero limbs, as Trim and the tails of the digit routines do. */
  method Strip(s: seq<UInt32>) returns (r: seq<UInt32>)
    ensures Trimmed(r) && Value(r) == Value(s)
    ensures r <= s && (|s| >= 1 ==> |r| >= 1)
    ensures IsLimbs(s) ==> IsLimbs(r)
    ensures Trimmed(s) ==> r == s
  {
    r := s;
    while |r| > 1 && r[|r| - 1] == 0
      invariant r <= s && (|s| >= 1 ==> |r| >= 1) && (Trimmed(s) ==> r == s)
      invariant Value(r) == Value(s)
    {
      LowDependsOnLimbs(r, r[..|r| - 1], |r| - 1);
      r := r[..|r| - 1];
    }
  }

  /** One carry step: writing sum % BASE and carrying sum / BASE moves no value. */
  lemma CarryStep(low: int, sum: int, digit: int, carry: int, power: int)
    requires sum == digit + BASE * carry
    ensures low + digit * power + carry * (BASE * power) == low + sum * power
  {
    Distribute(digit, BASE * carry, power);
    Associate(carry, BASE, power);
  }

  method AddDigits(a: seq<UInt32>, b: seq<UInt32>) returns (result: seq<UInt32>)
    requires IsLimbs(a) && IsLimbs(b)
    ensures IsLimbs(result) && Value(result) == Value(a) + Value(b)
    ensures Max(|a|, |b|) <= |result| <= Max(|a|, |b|) + 1
  {
    result := [];
    var n := Max(|a|, |b|);
    var carry: UInt64 := 0;
    var i: nat := 0;
    while i < n || carry != 0
      invariant IsLimbs(result) && |result| == i && carry <= 1
      invariant i <= n + 1 && (i == n + 1 ==> carry == 0)
      invariant Value(result) + carry * Power(i) == Low(a, i) + Low(b, i)
      decreases n + 1 - i
    {
      var d1: UInt64 := Digit(a, i);
      var d2: UInt64 := Digit(b, i);
      var sum: UInt64 := d1 + d2 + carry;
      ValueOfAppend(result, sum % BASE);
      CarryStep(Value(result), sum, sum % BASE, sum / BASE, Power(i));
      Distribute(d1, d2, Power(i));
      Distribute(d1 + d2, carry, Power(i));
      result := result + [sum % BASE];
      carry := sum / BASE;
      i := i + 1;
    }
    LowBeyondEnd(a, i);
    LowBeyondEnd(b, i);
  }

  /** One borrow step. */
  lemma BorrowStep(low: int, d1: int, d2: int, borrow: int, digit: int, borrow': int, power: int)
    requires digit == d1 - d2 - borrow + BASE * borrow'
    ensures low + borrow * power + digit * power
         == low + d1 * power - d2 * power + borrow' * (BASE * power)
  {
    Distribute(d1, d2, power);
    Distribute(d1 - d2, borrow, power);
    Distribute(d1 - d2 - borrow, BASE * borrow', power);
    Associate(borrow', BASE, power);
  }

  /** Limbs of b past the end of a larger number a are zero. */
  lemma LowOfSmaller(b: seq<UInt32>, n: nat)
    requires Value(b) < Power(n)
    ensures Low(b, n) == Value(b)
  {
    if n < |b| {
      ValueOfSplit(b, n);
      LowDependsOnLimbs(b, b[..n], n);
      if Value(b[n..]) >= 1 {
        MulMonotonic(1, Value(b[n..]), Power(n));
      }
    } else {
      LowBeyondEnd(b, n);
    }
  }

  method SubtractDigits(a: seq<UInt32>, b: seq<UInt32>) returns (result: seq<UInt32>)
    requires IsLimbs(a) && IsLimbs(b) && Value(b) <= Value(a)
    ensures IsLimbs(result) && Trimmed(result) && Value(result) == Value(a) - Value(b)
    ensures |result| <= |a| && (|a| >= 1 ==> |result| >= 1)
  {
    result := [];
    var borrow: Int64 := 0;
    var i: nat := 0;
    while i < |a|
      invariant i <= |a| && |result| == i && IsLimbs(result) && 0 <= borrow <= 1
      invariant Value(result) == Low(a, i) - Low(b, i) + borrow * Power(i)
    {
      var d1: Int64 := a[i];
      var d2: Int64 := Digit(b, i);
      var sub: Int64 := d1 - d2 - borrow;
      ghost var before := borrow;
      if sub < 0 {
        sub := sub + BASE;
        borrow := 1;
      } else {
        borrow := 0;
      }
      ValueOfAppend(result, sub);
      BorrowStep(Low(a, i) - Low(b, i), d1, d2, before, sub, borrow, Power(i));
      result := result + [sub];
      i := i + 1;
    }
    LowBound(a, |a|);
    LowOfSmaller(b, |a|);
    LowBound(result, |a|);
    if borrow == 1 {
      assert false;
    }
    result := Strip(result);
  }

  // ----- multiplication

  /** One step of the schoolbook inner loop, on the denoted numbers. */
  lemma ProductStep(value: int, old': int, ai: int, bj: int, carry: int, digit: int, carry': int,
                    pij: int, done: int, lowB: int, pi: int, pj: int)
    requires old' + ai * bj + carry == digit + BASE * carry'
    requires pij == pi * pj
    requires value + carry * pij == done + ai * lowB * pi
    ensures value + (digit - old') * pij + carry' * (BASE * pij) == done + ai * (lowB + bj * pj) * pi
  {
    Distribute(digit - old', BASE * carry', pij);
    Associate(carry', BASE, pij);
    assert (digit - old' + BASE * carry') * pij == (ai * bj + carry) * pij;
    Distribute(ai * bj, carry, pij);
    assert (ai * bj) * (pi * pj) == (ai * (bj * pj)) * pi by {
      assert (ai * bj) * (pi * pj) == ai * (bj * (pi * pj));
      assert bj * (pi * pj) == (bj * pj) * pi;
      Associate(ai, bj * pj, pi);
    }
    assert ai * (lowB + bj * pj) == ai * lowB + ai * (bj * pj);
    Distribute(ai * lowB, ai * (bj * pj), pi);
  }

  /** A schoolbook cell fits 64 bits and its carry is again a limb. */
  lemma CellBound(old': int, ai: int, bj: int, carry: int)
    requires 0 <= old' < BASE && 0 <= ai < BASE && 0 <= bj < BASE && 0 <= carry < BASE
    ensures 0 <= ai * bj
    ensures old' + ai * bj + carry < BASE * BASE
    ensures (old' + ai * bj + carry) / BASE < BASE
  {
    MulMonotonic(ai, BASE - 1, bj);
    MulMonotonic(bj, BASE - 1, BASE - 1);
  }

  /** Adding a[i] * b at offset i: the inner loop of the schoolbook product. */
  method MultiplyRow(a: seq<UInt32>, b: seq<UInt32>, i: nat, r: seq<UInt32>)
    returns (result: seq<UInt32>)
    requires IsLimbs(a) && IsLimbs(b) && IsLimbs(r) && i < |a| && |r| == |a| + |b|
    requires forall k :: i + |b| <= k < |r| ==> r[k] == 0
    ensures IsLimbs(result) && |result| == |r|
    ensures forall k :: i + 1 + |b| <= k < |r| ==> result[k] == 0
    ensures Value(result) == Value(r) + a[i] * Value(b) * Power(i)
  {
    result := r;
    var carry: UInt64 := 0;
    var j: nat := 0;
    while j < |b| || carry != 0
      invariant IsLimbs(result) && |result| == |r| && carry < BASE
      invariant j <= |b| + 1 && (j == |b| + 1 ==> carry == 0)
      invariant forall k :: i + Max(j, |b|) <= k < |r| ==> result[k] == 0
      invariant Value(result) + carry * Power(i + j) == Value(r) + a[i] * Low(b, j) * Power(i)
      decreases |b| + 1 - j
    {
      ghost var before := result;
      var digit: UInt64 := Digit(b, j);
      CellBound(result[i + j], a[i], digit, carry);
      var cur: UInt64 := result[i + j] + a[i] * digit + carry;
      PowerAdd(i, j);
      ValueOfUpdate(result, i + j, cur % BASE, |result|);
      ProductStep(Value(result), result[i + j], a[i], digit, carry, cur % BASE, cur / BASE,
                  Power(i + j), Value(r), Low(b, j), Power(i), Power(j));
      result := result[i + j := cur % BASE];
      carry := cur / BASE;
      j := j + 1;
    }
    LowBeyondEnd(b, j);
  }

  lemma RowSum(low: int, ai: int, power: int, b: int)
    ensures (low + ai * power) * b == low * b + ai * b * power
  {
    Distribute(low, ai * power, b);
    assert (ai * power) * b == (ai * b) * power;
  }

  method MultiplySchoolbook(a: seq<UInt32>, b: seq<UInt32>) returns (result: seq<UInt32>)
    requires IsLimbs(a) && IsLimbs(b)
    ensures IsLimbs(result) && Trimmed(result) && Value(result) == Value(a) * Value(b)
    ensures |a| + |b| >= 1 ==> |result| >= 1
  {
    result := seq(|a| + |b|, _ => 0);
    ZerosDenoteZero(result, |result|);
    var i: nat := 0;
    while i < |a|
      invariant i <= |a| && IsLimbs(result) && |result| == |a| + |b|
      invariant forall k :: i + |b| <= k < |result| ==> result[k] == 0
      invariant Value(result) == Low(a, i) * Value(b)
    {
      result := MultiplyRow(a, b, i, result);
      RowSum(Low(a, i), a[i], Power(i), Value(b));
      i := i + 1;
    }
    result := Strip(result);
  }

  /** `result[i + offset] += z[i]` for every i, each sum fitting UInt32. */
  method AddAtOffset(r: seq<UInt32>, z: seq<UInt32>, offset: nat, ghost layers: nat)
    returns (result: seq<UInt32>)
    requires IsLimbs(z) && offset + |z| <= |r| && layers <= 2
    requires forall k :: 0 <= k < |r| ==> r[k] <= layers * (BASE - 1)
    ensures |result| == |r|
    ensures forall k :: 0 <= k < |r| ==> result[k] <= (layers + 1) * (BASE - 1)
    ensures Value(result) == Value(r) + Value(z) * Power(offset)
  {
    result := r;
    var i: nat := 0;
    while i < |z|
      invariant i <= |z| && |result| == |r|
      invariant forall k :: 0 <= k < |r| ==> result[k] <= (layers + 1) * (BASE - 1)
      invariant forall k :: offset + i <= k < |r| ==> result[k] == r[k]
      invariant Value(result) == Value(r) + Low(z, i) * Power(offset)
    {
      var sum: UInt32 := result[i + offset] + z[i];
      ValueOfUpdate(result, i + offset, sum, |result|);
      PowerAdd(i, offset);
      Distribute(Low(z, i), z[i] * Power(i), Power(offset));
      Associate(z[i], Power(i), Power(offset));
      result := result[i + offset := sum];
      i := i + 1;
    }
  }

  /** Carry propagation over limbs that may exceed the base; no carry is left over. */
  method PropagateCarries(r: seq<UInt32>) returns (result: seq<UInt32>)
    requires Value(r) < Power(|r|)
    ensures |result| == |r| && IsLimbs(result) && Value(result) == Value(r)
  {
    result := r;
    var carry: UInt64 := 0;
    var i: nat := 0;
    while i < |result|
      invariant i <= |result| == |r| && carry <= 5
      invariant forall k :: 0 <= k < i ==> result[k] < BASE
      invariant forall k :: i <= k < |r| ==> result[k] == r[k]
      invariant Low(result, i) + carry * Power(i) == Low(r, i)
    {
      var cur: UInt64 := result[i] + carry;
      ValueOfUpdate(result, i, cur % BASE, i);
      CarryStep(Low(result, i), cur, cur % BASE, cur / BASE, Power(i));
      Distribute(result[i], carry, Power(i));
      result := result[i := cur % BASE];
      carry := cur / BASE;
      i := i + 1;
    }
    if carry != 0 {
      MulMonotonic(1, carry, Power(|r|));
      assert false;
    }
  }

  /** The Karatsuba identity for operands cut at the same position, h = BASE^half. */
  lemma Karatsuba(al: nat, ah: nat, bl: nat, bh: nat, h: nat)
    ensures (al + ah) * (bl + bh) - al * bl - ah * bh == al * bh + ah * bl
    ensures (al + ah * h) * (bl + bh * h) == al * bl + (al * bh + ah * bl) * h + (ah * bh) * (h * h)
  {
    assert (al + ah) * (bl + bh) == al * bl + al * bh + (ah * bl + ah * bh);
    var b := bl + bh * h;
    assert al * b == al * bl + (al * bh) * h;
    assert (ah * h) * b == (ah * bl) * h + (ah * bh) * (h * h) by {
      assert (ah * h) * (bl + bh * h) == (ah * h) * bl + (ah * h) * (bh * h);
      assert (ah * h) * bl == (ah * bl) * h;
      assert (ah * h) * (bh * h) == (ah * bh) * (h * h);
    }
    Distribute(al, ah * h, b);
    Distribute(al * bh, ah * bl, h);
  }

  /** The parts of an operand that the `split` lambda returns. */
  method Split(v: seq<UInt32>, half: nat) returns (low: seq<UInt32>, high: seq<UInt32>)
    requires IsLimbs(v)
    ensures IsLimbs(low) && IsLimbs(high) && low + high == v
    ensures |low| == if half < |v| then half else |v|
    ensures Value(v) == Value(low) + Value(high) * Power(half)
  {
    var cut := if half < |v| then half else |v|;
    low, high := v[..cut], v[cut..];
    ValueOfSplit(v, cut);
  }

  /** A partial product that sits inside the full product fits at its offset. */
  lemma PartFits(z: seq<UInt32>, offset: nat, product: nat, length: nat)
    requires IsLimbs(z) && Trimmed(z) && offset < length
    requires Value(z) * Power(offset) <= product < Power(length)
    ensures offset + |z| <= length
  {
    PowerAdd(length - offset, offset);
    if Value(z) >= Power(length - offset) {
      MulMonotonic(Power(length - offset), Value(z), Power(offset));
    }
    TrimmedLength(z, length - offset);
  }

  /** The product of two numbers fits the sum of their lengths. */
  lemma ProductBound(a: seq<UInt32>, b: seq<UInt32>)
    requires IsLimbs(a) && IsLimbs(b)
    ensures Value(a) * Value(b) < Power(|a| + |b|)
  {
    LowBound(a, |a|);
    LowBound(b, |b|);
    PowerAdd(|a|, |b|);
    StrictProduct(Value(a), Value(b), Power(|a|), Power(|b|));
  }

  lemma StrictProduct(x: nat, y: nat, p: nat, q: nat)
    requires x < p && y < q
    ensures x * y < p * q
  {
    MulMonotonic(x, p - 1, y);
    MulMonotonic(y, q, p - 1);
    Distribute(p, 1, q);
  }

  /** The three partial products of a Karatsuba step fit at their offsets. */
  lemma PartsFit(z0: seq<UInt32>, z1: seq<UInt32>, z2: seq<UInt32>, half: nat, length: nat)
    requires IsLimbs(z0) && IsLimbs(z1) && IsLimbs(z2) && Trimmed(z0) && Trimmed(z1) && Trimmed(z2)
    requires 2 * half < length
    requires Value(z0) + Value(z1) * Power(half) + Value(z2) * Power(2 * half) < Power(length)
    ensures |z0| <= length && half + |z1| <= length && 2 * half + |z2| <= length
  {
    ProductIsNatural(Value(z1), Power(half));
    ProductIsNatural(Value(z2), Power(2 * half));
    var product := Value(z0) + Value(z1) * Power(half) + Value(z2) * Power(2 * half);
    assert Value(z0) * Power(0) == Value(z0);
    PartFits(z0, 0, product, length);
    PartFits(z1, half, product, length);
    PartFits(z2, 2 * half, product, length);
  }

  /** Assembling z0 + z1 * BASE^half + z2 * BASE^(2*half), the tail of the Karatsuba branch. */
  method Recombine(z0: seq<UInt32>, z1: seq<UInt32>, z2: seq<UInt32>, half: nat, length: nat)
    returns (result: seq<UInt32>)
    requires IsLimbs(z0) && IsLimbs(z1) && IsLimbs(z2) && Trimmed(z0) && Trimmed(z1) && Trimmed(z2)
    requires 2 * half < length
    requires Value(z0) + Value(z1) * Power(half) + Value(z2) * Power(2 * half) < Power(length)
    ensures IsLimbs(result) && Trimmed(result) && |result| >= 1
    ensures Value(result) == Value(z0) + Value(z1) * Power(half) + Value(z2) * Power(2 * half)
  {
    PartsFit(z0, z1, z2, half, length);
    var zeros: seq<UInt32> := seq(length, _ => 0);
    ZerosDenoteZero(zeros, length);
    var r0 := AddAtOffset(zeros, z0, 0, 0);
    assert Value(r0) == Value(z0);
    var r1 := AddAtOffset(r0, z1, half, 1);
    var r2 := AddAtOffset(r1, z2, 2 * half, 2);
    result := PropagateCarries(r2);
    result := Strip(result);
  }

  /** The values that the Karatsuba branch combines, for operands cut at h = BASE^half. */
  lemma KaratsubaParts(a: nat, b: nat, al: nat, ah: nat, bl: nat, bh: nat, h: nat, z1: nat)
    requires a == al + ah * h && b == bl + bh * h && z1 == (al + ah) * (bl + bh)
    ensures al * bl <= z1 && ah * bh <= z1 - al * bl
    ensures a * b == al * bl + (z1 - al * bl - ah * bh) * h + (ah * bh) * (h * h)
  {
    Karatsuba(al, ah, bl, bh, h);
    assert al * bh >= 0 && ah * bl >= 0 && al * bl >= 0 && ah * bh >= 0;
  }

  /** The cross term and the final sum of the Karatsuba branch, from the three sub-products. */
  method CombineParts(a: seq<UInt32>, b: seq<UInt32>, half: nat, ghost al: nat, ghost ah: nat,
                      ghost bl: nat, ghost bh: nat, z0: seq<UInt32>, z1: seq<UInt32>, z2: seq<UInt32>)
    returns (result: seq<UInt32>)
    requires IsLimbs(a) && IsLimbs(b) && 2 * half < |a| + |b|
    requires Value(a) == al + ah * Power(half) && Value(b) == bl + bh * Power(half)
    requires IsLimbs(z0) && IsLimbs(z1) && IsLimbs(z2) && Trimmed(z0) && Trimmed(z2)
    requires Value(z0) == al * bl && Value(z1) == (al + ah) * (bl + bh) && Value(z2) == ah * bh
    ensures IsLimbs(result) && Trimmed(result) && |result| >= 1
    ensures Value(result) == Value(a) * Value(b)
  {
    KaratsubaParts(Value(a), Value(b), al, ah, bl, bh, Power(half), Value(z1));
    var cross := SubtractDigits(z1, z0);
    cross := SubtractDigits(cross, z2);
    PowerAdd(half, half);
    ProductBound(a, b);
    result := Recombine(z0, cross, z2, half, |a| + |b|);
  }

  method MultiplyDigits(a: seq<UInt32>, b: seq<UInt32>) returns (result: seq<UInt32>)
    requires IsLimbs(a) && IsLimbs(b)
    ensures IsLimbs(result) && Trimmed(result) && Value(result) == Value(a) * Value(b)
    ensures |a| + |b| >= 1 ==> |result| >= 1
    decreases Max(|a|, |b|)
  {
    if a == [0] || b == [0] {
      ZerosDenoteZero(if a == [0] then a else b, 1);
      return [0];
    }
    if |a| < 32 || |b| < 32 {
      result := MultiplySchoolbook(a, b);
      return;
    }
    var n := Max(|a|, |b|);
    var half := n / 2;
    var aLow, aHigh := Split(a, half);
    var bLow, bHigh := Split(b, half);
    var z0 := MultiplyDigits(aLow, bLow);
    var z2 := MultiplyDigits(aHigh, bHigh);
    var aSum := AddDigits(aLow, aHigh);
    var bSum := AddDigits(bLow, bHigh);
    var z1 := MultiplyDigits(aSum, bSum);
    result := CombineParts(a, b, half, Value(aLow), Value(aHigh), Value(bLow), Value(bHigh), z0, z1, z2);
  }
}
