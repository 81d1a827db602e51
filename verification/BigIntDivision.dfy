/** The four division routines of BigInt.  Each one is proved to produce the quotient and remainder of the
    magnitudes, which are unique, so the size thresholds that choose between them cannot be observed. */
module BigIntDivision {
  import opened Arithmetic
  import opened MachineWords
  import opened BigIntLimbs
  import opened BigIntDigits
  import opened BigIntSigned

  /** q and r are the quotient and remainder of a by b. */
  ghost predicate IsDivision(a: nat, b: nat, q: int, r: int) {
    a == q * b + r && 0 <= r < b
  }

  /** There is only one such pair, so all routines agree with each other. */
  lemma DivisionIsUnique(a: nat, b: nat, q: int, r: int, q': int, r': int)
    requires IsDivision(a, b, q, r) && IsDivision(a, b, q', r')
    ensures q == q' && r == r'
  {
    Distribute(q, q', b);
    if q < q' {
      MulMonotonic(q - q', -1, b);
    } else if q' < q {
      MulMonotonic(1, q - q', b);
    }
  }

  /** Bringing down one limb keeps the division relation. */
  lemma BringDown(upper: int, d: int, quotient: int, b: int, rem: int, qd: int, rem': int)
    requires upper == quotient * b + rem
    requires d + BASE * rem == qd * b + rem'
    ensures d + BASE * upper == (qd + BASE * quotient) * b + rem'
  {
    Distribute(qd, BASE * quotient, b);
    Associate(BASE, quotient, b);
  }

  /** Long division has processed the limbs of a from i on: their quotient is in q, r is left over. */
  ghost predicate DividedFrom(a: seq<UInt32>, q: seq<UInt32>, i: nat, b: nat, r: int)
    requires i <= |a| == |q|
  {
    Value(a[i..]) == Value(q[i..]) * b + r
  }

  lemma NothingDivided(a: seq<UInt32>, q: seq<UInt32>, b: nat)
    requires |a| == |q|
    ensures DividedFrom(a, q, |a|, b, 0)
  {
    assert a[|a|..] == [] && q[|a|..] == [];
  }

  lemma AllDivided(a: seq<UInt32>, q: seq<UInt32>, b: nat, r: int)
    requires |a| == |q| && DividedFrom(a, q, 0, b, r)
    ensures Value(a) == Value(q) * b + r
  {
    assert a[0..] == a && q[0..] == q;
  }

  /** The next lower limb, with its quotient digit qd. */
  lemma DivideNext(a: seq<UInt32>, q: seq<UInt32>, i: nat, b: nat, rem: int, qd: UInt32, rem': int)
    requires i < |a| == |q| && DividedFrom(a, q, i + 1, b, rem)
    requires a[i] + BASE * rem == qd * b + rem'
    ensures DividedFrom(a, q[i := qd], i, b, rem')
  {
    var q' := q[i := qd];
    TopLimbs(a, i);
    TopLimbs(q', i);
    assert q'[i + 1..] == q[i + 1..];
    BringDown(Value(a[i + 1..]), a[i], Value(q[i + 1..]), b, rem, qd, rem');
  }

  // ----- single limb

  /** The quotient limb is below the base because the running remainder is below the divisor. */
  lemma QuotientLimb(d: int, rem: int, divisor: int, digit: int, rest: int)
    requires 0 <= d < BASE && 0 <= rem < divisor
    requires d + rem * BASE == digit * divisor + rest && 0 <= rest < divisor
    ensures 0 <= digit < BASE
  {
    if digit >= BASE {
      MulMonotonic(BASE, digit, divisor);
    }
    if digit < 0 {
      MulMonotonic(digit, -1, divisor);
    }
  }

  /** One limb of DivByUInt32; the running dividend fits 64 bits. */
  method DivideLimbByWord(limb: UInt32, rem: UInt64, divisor: UInt32) returns (digit: UInt32, rest: UInt64)
    requires limb < BASE && rem < divisor
    ensures digit < BASE && rest < divisor && limb + BASE * rem == digit * divisor + rest
  {
    var cur: UInt64 := limb + rem * BASE;
    ghost var quotient := cur / divisor;
    rest := cur % divisor;
    QuotientLimb(limb, rem, divisor, quotient, rest);
    digit := cur / divisor;
  }

  /** Long division of a magnitude by a machine word. */
  method DivByUInt32(value: BigInt, divisor: UInt32) returns (result: BigInt, remainder: UInt32)
    requires value.Valid() && divisor > 0
    ensures result.Valid() && result.negative == value.negative
    ensures IsDivision(value.Magnitude(), divisor, result.Magnitude(), remainder)
  {
    var n := |value.digits|;
    var digits: seq<UInt32> := seq(n, _ => 0);
    var rem: UInt64 := 0;
    var i := n - 1;
    NothingDivided(value.digits, digits, divisor);
    while i >= 0
      invariant -1 <= i < n && |digits| == n && IsLimbs(digits) && rem < divisor
      invariant DividedFrom(value.digits, digits, i + 1, divisor, rem)
    {
      var digit, rest := DivideLimbByWord(value.digits[i], rem, divisor);
      DivideNext(value.digits, digits, i, divisor, rem, digit, rest);
      digits := digits[i := digit];
      rem := rest;
      i := i - 1;
    }
    AllDivided(value.digits, digits, divisor, rem);
    digits := Strip(digits);
    result := BigInt(digits, value.negative);
    remainder := rem;
  }

  method DivModBySingleLimb(a: BigInt, b: UInt32) returns (q: BigInt, r: BigInt)
    requires a.Valid() && b > 0
    ensures q.Valid() && r.Valid() && !q.negative && !r.negative
    ensures IsDivision(a.Magnitude(), b, q.Magnitude(), r.Magnitude())
  {
    var rem: UInt32;
    q, rem := DivByUInt32(a.Abs(), b);
    r := FromUInt64(rem);
    NonNegative(r);
  }

  /** A canonical value that is not negative has no sign flag and its magnitude is its value. */
  lemma NonNegative(r: BigInt)
    requires r.Canonical() && r.ToInt() >= 0
    ensures !r.negative && r.Magnitude() == r.ToInt()
  {
  }

  // ----- repeated subtraction

  method NaiveDivMod(a: BigInt, b: BigInt) returns (q: BigInt, r: BigInt)
    requires a.Valid() && b.Valid() && b.Magnitude() > 0
    ensures q.Valid() && r.Valid() && !q.negative && !r.negative
    ensures IsDivision(a.Magnitude(), b.Magnitude(), q.Magnitude(), r.Magnitude())
  {
    var divisor := b.Abs();
    q := FromUInt64(0);
    NonNegative(q);
    r := a.Abs();
    var one := FromUInt64(1);
    NonNegative(one);
    var less := AbsLess(r, divisor);
    while !less
      invariant q.Valid() && r.Valid() && !q.negative && !r.negative
      invariant a.Magnitude() == q.Magnitude() * b.Magnitude() + r.Magnitude()
      invariant less <==> r.Magnitude() < b.Magnitude()
      decreases r.Magnitude(), !less
    {
      Distribute(q.Magnitude(), 1, b.Magnitude());
      r := Subtract(r, divisor);
      q := Add(q, one);
      less := AbsLess(r, divisor);
    }
  }

  /** That loop with a divisor without limbs: after any number of passes it is still to go on, with nothing
      subtracted. */
  method NaivePasses(a: BigInt, b: BigInt, passes: nat) returns (q: BigInt, r: BigInt, less: bool)
    requires a.Sound() && b.Sound() && !b.HasLimbs()
    ensures !less && q.ToInt() == passes && r.Sound() && r.Magnitude() == a.Magnitude()
  {
    var divisor := b.Abs();
    q := FromUInt64(0);
    r := a.Abs();
    var one := FromUInt64(1);
    less := AbsLess(r, divisor);
    var k := 0;
    while k < passes
      invariant k <= passes && q.Valid() && q.ToInt() == k && r.Sound() && !r.negative
      invariant !less && r.Magnitude() == a.Magnitude()
    {
      assert divisor.ToInt() == 0;
      r := Subtract(r, divisor);
      q := Add(q, one);
      less := AbsLess(r, divisor);
      k := k + 1;
    }
  }

  // ----- binary search for each quotient limb

  /** The largest quotient digit, found by bisection over [0, BASE); with a divisor of no magnitude, BASE - 1. */
  method SearchDigit(divisor: BigInt, rem: BigInt) returns (qd: UInt32)
    requires divisor.Sound() && rem.Valid() && !divisor.negative && !rem.negative
    requires divisor.Magnitude() > 0 ==> rem.Magnitude() < BASE * divisor.Magnitude()
    ensures qd < BASE
    ensures divisor.Magnitude() > 0 ==> qd * divisor.Magnitude() <= rem.Magnitude() < (qd + 1) * divisor.Magnitude()
    ensures divisor.Magnitude() == 0 ==> qd == BASE - 1
  {
    var low: UInt32, high: UInt32 := 0, BASE - 1;
    qd := 0;
    ghost var d := divisor.Magnitude();
    while low <= high
      invariant low <= high + 1 && high < BASE && (low == 0 || qd == low - 1) && (low == 0 ==> qd == 0)
      invariant qd * d <= rem.Magnitude()
      invariant if d > 0 then rem.Magnitude() < (high + 1) * d else high == BASE - 1
      decreases high + 1 - low
    {
      var mid: UInt32 := low + (high - low) / 2;
      var factor := FromUInt64(mid);
      NonNegative(factor);
      var prod := Multiply(divisor, factor);
      var le := LessOrEqual(prod, rem);
      assert prod.Magnitude() == mid * d;
      if le {
        qd := mid;
        low := mid + 1;
      } else {
        assert mid != 0 && d > 0;
        high := mid - 1;
      }
    }
  }

  lemma DigitTaken(total: nat, qd: nat, d: nat)
    requires if d > 0 then qd * d <= total < (qd + 1) * d else true
    ensures 0 <= qd * d <= total && (d > 0 ==> total - qd * d < d)
    ensures d == 0 || qd == 0 ==> qd * d == 0
  {
    Distribute(qd, 1, d);
  }

  /** Subtracts a quotient digit's multiple of the divisor. */
  method TakeMultiple(divisor: BigInt, rem: BigInt, qd: UInt32, ghost product: nat) returns (rest: BigInt)
    requires divisor.Sound() && rem.Valid() && !divisor.negative && !rem.negative
    requires product == qd * divisor.Magnitude() && product <= rem.Magnitude()
    ensures rest.Valid() && !rest.negative && rest.Magnitude() == rem.Magnitude() - product
  {
    if qd == 0 {
      return rem;
    }
    var factor := FromUInt64(qd);
    NonNegative(factor);
    var prod := Multiply(divisor, factor);
    assert prod.Magnitude() == product;
    rest := Subtract(rem, prod);
  }

  /** One limb of long division: bring it down, search the digit, subtract. */
  method DivideLimb(divisor: BigInt, rem: BigInt, limb: UInt32) returns (qd: UInt32, rest: BigInt)
    requires divisor.Sound() && rem.Valid() && !divisor.negative && !rem.negative && limb < BASE
    requires divisor.Magnitude() > 0 ==> rem.Magnitude() < divisor.Magnitude()
    ensures qd < BASE && rest.Valid() && !rest.negative
    ensures limb + BASE * rem.Magnitude() == qd * divisor.Magnitude() + rest.Magnitude()
    ensures divisor.Magnitude() > 0 ==> rest.Magnitude() < divisor.Magnitude()
    ensures divisor.Magnitude() == 0 ==> qd == BASE - 1
  {
    ValueOfPrepend(limb, rem.digits, 0);
    var digits := Strip([limb] + rem.digits);
    var total := BigInt(digits, false);
    qd := SearchDigit(divisor, total);
    DigitTaken(total.Magnitude(), qd, divisor.Magnitude());
    rest := TakeMultiple(divisor, total, qd, qd * divisor.Magnitude());
  }

  /** How far long division has got: the limbs of a from i on are divided; a divisor of no magnitude has made all
      their quotient digits BASE - 1. */
  ghost predicate Progress(a: seq<UInt32>, q: seq<UInt32>, i: nat, b: nat, rem: int)
    requires i <= |a| == |q|
  {
    && IsLimbs(q) && DividedFrom(a, q, i, b, rem)
    && if b > 0 then rem < b else forall k :: i <= k < |q| ==> q[k] == BASE - 1
  }

  lemma ProgressNext(a: seq<UInt32>, q: seq<UInt32>, i: nat, b: nat, rem: nat, qd: UInt32, rest: nat)
    requires i < |a| == |q| && Progress(a, q, i + 1, b, rem) && qd < BASE
    requires a[i] + BASE * rem == qd * b + rest
    requires if b > 0 then rest < b else qd == BASE - 1
    ensures Progress(a, q[i := qd], i, b, rest)
  {
    DivideNext(a, q, i, b, rem, qd, rest);
  }

  /** Long division.  A divisor without limbs is not refused: every quotient digit comes out as BASE - 1. */
  method KnuthDivMod(a: BigInt, b: BigInt) returns (q: BigInt, r: BigInt)
    requires a.Valid() && b.Sound() && (b.HasLimbs() ==> b.Magnitude() > 0)
    ensures q.Valid() && r.Valid() && !q.negative && !r.negative
    ensures b.HasLimbs() ==> IsDivision(a.Magnitude(), b.Magnitude(), q.Magnitude(), r.Magnitude())
    ensures !b.HasLimbs() ==> q.Magnitude() == Power(|a.digits|) - 1 && r.Magnitude() == a.Magnitude()
  {
    var divisor := b.Abs();
    var n := |a.digits|;
    var digits: seq<UInt32> := seq(n, _ => 0);
    r := FromUInt64(0);
    NonNegative(r);
    var i := n - 1;
    NothingDivided(a.digits, digits, b.Magnitude());
    while i >= 0
      invariant -1 <= i < n && |digits| == n && r.Valid() && !r.negative
      invariant Progress(a.digits, digits, i + 1, b.Magnitude(), r.Magnitude())
    {
      var qd, rest := DivideLimb(divisor, r, a.digits[i]);
      ProgressNext(a.digits, digits, i, b.Magnitude(), r.Magnitude(), qd, rest.Magnitude());
      digits := digits[i := qd];
      r := rest;
      i := i - 1;
    }
    AllDivided(a.digits, digits, b.Magnitude(), r.Magnitude());
    if !b.HasLimbs() {
      AllNines(digits, n);
    }
    digits := Strip(digits);
    q := BigInt(digits, false);
  }

  lemma {:induction false} AllNines(digits: seq<UInt32>, n: nat)
    requires n <= |digits| && forall k :: 0 <= k < n ==> digits[k] == BASE - 1
    ensures Low(digits, n) == Power(n) - 1
  {
    if n > 0 {
      AllNines(digits, n - 1);
    }
  }

  // ----- blockwise division

  /** shift_left_limbs: multiplication by BASE^limbs; zero is left alone. */
  method ShiftLeftLimbs(x: BigInt, limbs: nat) returns (r: BigInt)
    requires x.Valid()
    ensures r.Valid() && r.negative == x.negative
    ensures r.Magnitude() == x.Magnitude() * Power(limbs)
    ensures !x.IsZero() ==> r.digits == seq(limbs, _ => 0) + x.digits
  {
    ZeroTest(x);
    if x.IsZero() {
      return x;
    }
    ValueOfShift(limbs, x.digits);
    r := BigInt(seq(limbs, _ => 0) + x.digits, x.negative);
    if |x.digits| == 1 {
      assert x.digits == [x.digits[0]];
    }
  }

  /** split_blocks, of which only the number of blocks is used afterwards. */
  method SplitBlocks(x: BigInt, blockSize: nat) returns (blocks: seq<BigInt>)
    requires x.Valid() && blockSize > 0
    ensures |x.digits| <= |blocks| * blockSize < |x.digits| + blockSize
    ensures AreBlocks(blocks, blockSize) && Joined(blocks, blockSize) == x.Magnitude()
  {
    blocks := [];
    var total := |x.digits|;
    var i := 0;
    assert x.digits[..0] == [];
    while i < total
      invariant i == |blocks| * blockSize && i < total + blockSize && AreBlocks(blocks, blockSize)
      invariant Joined(blocks, blockSize) == Value(x.digits[..if i < total then i else total])
    {
      var end := if i + blockSize < total then i + blockSize else total;
      Distribute(|blocks|, 1, blockSize);
      blocks := CutBlock(x.digits, i, end, blockSize, blocks);
      i := i + blockSize;
    }
    assert x.digits[..total] == x.digits;
  }

  ghost predicate AreBlocks(blocks: seq<BigInt>, blockSize: nat) {
    forall j :: 0 <= j < |blocks| ==>
      blocks[j].Valid() && !blocks[j].negative && blocks[j].Magnitude() < Power(blockSize)
  }

  method CutBlock(digits: seq<UInt32>, i: nat, end: nat, blockSize: nat, blocks: seq<BigInt>)
    returns (more: seq<BigInt>)
    requires IsLimbs(digits) && i < end <= |digits| && end <= i + blockSize
    requires i == |blocks| * blockSize && AreBlocks(blocks, blockSize)
    requires Joined(blocks, blockSize) == Value(digits[..i])
    ensures |more| == |blocks| + 1 && AreBlocks(more, blockSize) && Joined(more, blockSize) == Value(digits[..end])
  {
    var part := Strip(digits[i..end]);
    NextBlock(digits, i, end);
    BlockFits(digits[i..end], blockSize);
    JoinedNext(blocks, BigInt(part, false), blockSize, i);
    more := blocks + [BigInt(part, false)];
  }

  /** What the blocks of a number make together. */
  ghost function Joined(blocks: seq<BigInt>, blockSize: nat): (n: nat) {
    if blocks == [] then 0
    else
      var last := |blocks| - 1;
      assert 0 <= last * blockSize;
      Joined(blocks[..last], blockSize) + blocks[last].Magnitude() * Power(last * blockSize)
  }

  lemma JoinedNext(blocks: seq<BigInt>, block: BigInt, blockSize: nat, i: nat)
    requires i == |blocks| * blockSize
    ensures Joined(blocks + [block], blockSize) == Joined(blocks, blockSize) + block.Magnitude() * Power(i)
  {
    assert (blocks + [block])[..|blocks|] == blocks;
  }

  lemma NextBlock(digits: seq<UInt32>, i: nat, end: nat)
    requires i <= end <= |digits|
    ensures Value(digits[..end]) == Value(digits[..i]) + Value(digits[i..end]) * Power(i)
  {
    CutValue(digits[..end], digits[..i], digits[i..end]);
  }

  lemma CutValue(whole: seq<UInt32>, low: seq<UInt32>, high: seq<UInt32>)
    requires whole == low + high
    ensures Value(whole) == Value(low) + Value(high) * Power(|low|)
  {
    assert whole[..|low|] == low && whole[|low|..] == high;
    ValueOfSplit(whole, |low|);
  }

  lemma BlockFits(part: seq<UInt32>, blockSize: nat)
    requires IsLimbs(part) && |part| <= blockSize
    ensures Value(part) < Power(blockSize)
  {
    LowBound(part, |part|);
    PowerMonotonic(|part|, blockSize);
  }

  /** A dividend with at least as many limbs has at least as many blocks. */
  lemma MoreBlocks(x: nat, y: nat, k: nat, m: nat, n: nat)
    requires k > 0 && m <= n && n <= x * k && y * k < m + k
    ensures y <= x
  {
    if x < y {
      MulMonotonic(x + 1, y, k);
      Distribute(x, 1, k);
    }
  }

  /** One block: quotient so far, shifted by BASE^k, plus the block quotient. */
  lemma BlockStep(a: nat, q: int, bHat: int, shift: int, rem: int, qHat: int, rHat: int)
    requires a == q * (bHat * shift) + rem && rem == qHat * bHat + rHat
    ensures a == (q * shift + qHat) * bHat + rHat
  {
    Distribute(q * shift, qHat, bHat);
    Associate(q, shift, bHat);
    assert shift * bHat == bHat * shift;
  }

  /** Dropping k zero limbs at the bottom of a shifted divisor. */
  lemma Unshift(limbs: nat, k: nat, s: seq<UInt32>)
    requires k <= limbs
    ensures (seq<UInt32>(limbs, _ => 0) + s)[k..] == seq<UInt32>(limbs - k, _ => 0) + s
  {
  }

  /** One pass of the block loop: divide by the shifted divisor, extend the quotient. */
  method DivideBlock(q: BigInt, rem: BigInt, bHat: BigInt, k: nat, ghost a: nat)
    returns (q': BigInt, rem': BigInt)
    requires q.Valid() && rem.Valid() && bHat.Valid() && !q.negative && !rem.negative
    requires bHat.Magnitude() > 0
    requires a == q.Magnitude() * (bHat.Magnitude() * Power(k)) + rem.Magnitude()
    ensures q'.Valid() && rem'.Valid() && !q'.negative && !rem'.negative
    ensures IsDivision(a, bHat.Magnitude(), q'.Magnitude(), rem'.Magnitude())
  {
    var qHat;
    qHat, rem' := KnuthDivMod(rem, bHat);
    q' := ShiftLeftLimbs(q, k);
    q' := Add(q', qHat);
    BlockStep(a, q.Magnitude(), bHat.Magnitude(), Power(k), rem.Magnitude(), qHat.Magnitude(), rem'.Magnitude());
  }

  /** Shifting a vector by k more limbs multiplies it by BASE^k. */
  lemma ShiftByMore(b: seq<UInt32>, limbs: nat, k: nat)
    ensures Value(seq<UInt32>(limbs + k, _ => 0) + b) == Value(seq<UInt32>(limbs, _ => 0) + b) * Power(k)
  {
    ValueOfShift(limbs + k, b);
    ValueOfShift(limbs, b);
    PowerAdd(limbs, k);
    Associate(Value(b), Power(limbs), Power(k));
  }

  /** Fails on a divisor that is zero or has no limbs.  A dividend with fewer limbs is handed back as it is, sign
      included. */
  method FastDivMod(a: BigInt, b: BigInt) returns (ok: bool, q: BigInt, r: BigInt)
    requires a.Valid() && b.Sound()
    ensures ok <==> b.Magnitude() > 0
    ensures q.Valid() && r.Valid() && !q.negative && (r.negative ==> a.negative)
    ensures ok ==> IsDivision(a.Magnitude(), b.Magnitude(), q.Magnitude(), r.Magnitude())
    ensures ok && b.Magnitude() <= a.Magnitude() ==> !r.negative
  {
    var n, m := |a.digits|, |b.digits|;
    ZeroTest(a);
    q := FromUInt64(0);
    NonNegative(q);
    if m == 0 {
      return false, q, q;
    }
    ZeroTest(b);
    if b.IsZero() {
      return false, q, q;
    }
    LowBound(a.digits, n);
    if n < m {
      TrimmedLowerBound(b.digits);
      PowerMonotonic(n, m - 1);
    }
    if n < m || a.IsZero() {
      return true, q, a;
    }
    ok := true;
    if n < 512 || m < 32 {
      q, r := KnuthDivMod(a, b);
      return;
    }
    var k := (m + 1) / 2;
    var aBlocks := SplitBlocks(a.Abs(), k);
    var bBlocks := SplitBlocks(b.Abs(), k);
    MoreBlocks(|aBlocks|, |bBlocks|, k, m, n);
    var t := |aBlocks| - |bBlocks|;
    q, r := RunBlocks(a, b, k, t);
  }

  /** The block loop: t + 1 passes over a divisor that moves down k limbs each time. */
  method RunBlocks(a: BigInt, b: BigInt, k: nat, t: nat) returns (q: BigInt, r: BigInt)
    requires a.Valid() && b.Valid() && b.Magnitude() > 0 && 0 < k < |b.digits|
    ensures q.Valid() && r.Valid() && !q.negative && !r.negative
    ensures IsDivision(a.Magnitude(), b.Magnitude(), q.Magnitude(), r.Magnitude())
  {
    ZeroTest(b);
    ghost var limbs: nat := t * k;
    var bHat := ShiftLeftLimbs(b.Abs(), t * k);
    ShiftedIsPositive(b, limbs);
    q := FromUInt64(0);
    NonNegative(q);
    r := a.Abs();
    var i := t + 1;
    while i > 0
      invariant 0 <= i <= t + 1
      invariant q.Valid() && r.Valid() && !q.negative && !r.negative
      invariant i > 0 ==> limbs == (i - 1) * k && IsShifted(bHat, b, limbs)
      invariant i > 0 ==> a.Magnitude() == q.Magnitude() * (bHat.Magnitude() * Power(k)) + r.Magnitude()
      invariant i == 0 ==> IsDivision(a.Magnitude(), b.Magnitude(), q.Magnitude(), r.Magnitude())
    {
      i := i - 1;
      q, r := DivideBlock(q, r, bHat, k, a.Magnitude());
      OneBlockLess(i, k);
      bHat := DropBlock(b, bHat, limbs, k);
      limbs := if limbs == 0 then 0 else limbs - k;
    }
    var digits := Strip(q.digits);
    q := BigInt(digits, q.negative);
  }

  lemma OneBlockLess(i: nat, k: nat)
    requires k > 0
    ensures i == 0 ==> i * k == 0
    ensures i > 0 ==> i * k == (i - 1) * k + k && (i - 1) * k >= 0
  {
    if i > 0 {
      Distribute(i, 1, k);
      MulMonotonic(0, i - 1, k);
    }
  }

  /** bHat is |b| moved up by `limbs` limbs. */
  ghost predicate IsShifted(bHat: BigInt, b: BigInt, limbs: nat) {
    && bHat == BigInt(seq(limbs, _ => 0) + b.digits, false)
    && bHat.Valid() && bHat.Magnitude() > 0
  }

  lemma ShiftedIsPositive(b: BigInt, limbs: nat)
    requires b.Valid() && b.Magnitude() > 0
    ensures IsShifted(BigInt(seq(limbs, _ => 0) + b.digits, false), b, limbs)
  {
    ValueOfShift(limbs, b.digits);
    MulMonotonic(1, Value(b.digits), Power(limbs));
    ZeroTest(b);
    if |b.digits| == 1 {
      assert b.digits == [b.digits[0]];
    }
  }

  /** Erasing the k low limbs of the shifted divisor. */
  method DropBlock(b: BigInt, bHat: BigInt, ghost limbs: nat, k: nat) returns (next: BigInt)
    requires b.Valid() && b.Magnitude() > 0 && 0 < k < |b.digits| && (limbs == 0 || limbs >= k)
    requires IsShifted(bHat, b, limbs)
    ensures limbs > 0 ==> IsShifted(next, b, limbs - k) && bHat.Magnitude() == next.Magnitude() * Power(k)
    ensures limbs == 0 ==> bHat.Magnitude() == b.Magnitude()
  {
    // b itself is longer than k, so the branch that resets the divisor to zero is never taken.
    next := BigInt(bHat.digits[k..], false);
    if limbs > 0 {
      Unshift(limbs, k, b.digits);
      ShiftedIsPositive(b, limbs - k);
      ShiftByMore(b.digits, limbs - k, k);
    } else {
      assert bHat.digits == b.digits;
    }
    var digits := Strip(next.digits);
    next := BigInt(digits, false);
  }
}
