/** Limb vectors of BigInt (least significant limb first, base 10^9) and the natural number they
    denote.  Everything about carries, borrows and products is reduced to the laws of this file. */
module BigIntLimbs {
  import opened Arithmetic
  import opened MachineWords

  const BASE: UInt32 := 1_000_000_000

  /** BASE to the power n. */
  ghost function Power(n: nat): (p: nat)
    ensures p >= 1
  {
    if n == 0 then 1 else BASE * Power(n - 1)
  }

  /** Limb i of a vector, reading zero past its end. */
  ghost function At(s: seq<UInt32>, i: nat): UInt32 {
    if i < |s| then s[i] else 0
  }

  /** The number denoted by the n low limbs. */
  ghost function Low(s: seq<UInt32>, n: nat): nat {
    if n == 0 then 0 else Low(s, n - 1) + At(s, n - 1) * Power(n - 1)
  }

  /** The number denoted by the whole vector. */
  ghost function Value(s: seq<UInt32>): nat {
    Low(s, |s|)
  }

  /** Every limb is a base-10^9 digit. */
  ghost predicate IsLimbs(s: seq<UInt32>) {
    forall i :: 0 <= i < |s| ==> s[i] < BASE
  }

  /** No leading zero limb, except for a lone zero. */
  predicate Trimmed(s: seq<UInt32>) {
    |s| > 1 ==> s[|s| - 1] != 0
  }

  // ----- arithmetic of powers

  lemma {:induction false} PowerAdd(m: nat, n: nat)
    ensures Power(m + n) == Power(m) * Power(n)
  {
    if m != 0 {
      PowerAdd(m - 1, n);
      Associate(BASE, Power(m - 1), Power(n));
    }
  }

  lemma {:induction false} PowerMonotonic(m: nat, n: nat)
    requires m <= n
    ensures Power(m) <= Power(n)
    decreases n
  {
    if m < n {
      PowerMonotonic(m, n - 1);
    }
  }

  // ----- laws of the denotation

  lemma {:induction false} LowDependsOnLimbs(s: seq<UInt32>, t: seq<UInt32>, n: nat)
    requires forall i :: 0 <= i < n ==> At(s, i) == At(t, i)
    ensures Low(s, n) == Low(t, n)
  {
    if n != 0 {
      LowDependsOnLimbs(s, t, n - 1);
      assert At(s, n - 1) == At(t, n - 1);
    }
  }

  lemma {:induction false} LowBeyondEnd(s: seq<UInt32>, n: nat)
    requires |s| <= n
    ensures Low(s, n) == Value(s)
    decreases n
  {
    if |s| < n {
      LowBeyondEnd(s, n - 1);
    }
  }

  lemma ValueOfAppend(s: seq<UInt32>, x: UInt32)
    ensures Value(s + [x]) == Value(s) + x * Power(|s|)
  {
    var t := s + [x];
    LowDependsOnLimbs(s, t, |s|);
    assert At(t, |s|) == x;
  }

  lemma {:induction false} ValueOfUpdate(s: seq<UInt32>, k: nat, x: UInt32, n: nat)
    requires k < |s|
    ensures k < n ==> Low(s[k := x], n) == Low(s, n) + (x - s[k]) * Power(k)
    ensures n <= k ==> Low(s[k := x], n) == Low(s, n)
  {
    if n != 0 {
      ValueOfUpdate(s, k, x, n - 1);
      if n - 1 == k {
        Distribute(x, s[k], Power(k));
      }
    }
  }

  lemma {:induction false} LowBound(s: seq<UInt32>, n: nat)
    requires IsLimbs(s)
    ensures Low(s, n) < Power(n)
  {
    if n != 0 {
      LowBound(s, n - 1);
      MulMonotonic(At(s, n - 1) + 1, BASE, Power(n - 1));
      Distribute(At(s, n - 1), 1, Power(n - 1));
    }
  }

  /** Putting a limb below all others. */
  lemma {:induction false} ValueOfPrepend(x: UInt32, s: seq<UInt32>, n: nat)
    ensures Low([x] + s, n + 1) == x + BASE * Low(s, n)
    ensures Value([x] + s) == x + BASE * Value(s)
    decreases |s| + n
  {
    LowOfPrepend(x, s, n);
    LowOfPrepend(x, s, |s|);
  }

  lemma {:induction false} LowOfPrepend(x: UInt32, s: seq<UInt32>, n: nat)
    ensures Low([x] + s, n + 1) == x + BASE * Low(s, n)
  {
    var t := [x] + s;
    if n == 0 {
      assert Power(0) == 1 && Low(t, 0) == 0;
      assert Low(t, 1) == x;
    } else {
      LowOfPrepend(x, s, n - 1);
      assert At(t, n) == At(s, n - 1);
      Associate(At(s, n - 1), BASE, Power(n - 1));
      assert Low(t, n + 1) == Low(t, n) + At(s, n - 1) * (BASE * Power(n - 1));
      assert BASE * Low(s, n) == BASE * Low(s, n - 1) + BASE * (At(s, n - 1) * Power(n - 1));
    }
  }

  /** Cutting a vector in two. */
  lemma {:induction false} ValueOfSplit(s: seq<UInt32>, cut: nat)
    requires cut <= |s|
    ensures Value(s) == Value(s[..cut]) + Value(s[cut..]) * Power(cut)
  {
    LowOfSplit(s, cut, |s| - cut);
    LowDependsOnLimbs(s, s[..cut], cut);
  }

  lemma {:induction false} LowOfSplit(s: seq<UInt32>, cut: nat, n: nat)
    requires cut + n <= |s|
    ensures Low(s, cut + n) == Low(s, cut) + Low(s[cut..], n) * Power(cut)
  {
    if n != 0 {
      LowOfSplit(s, cut, n - 1);
      var d := At(s, cut + n - 1);
      assert At(s[cut..], n - 1) == d;
      PowerAdd(cut, n - 1);
      Distribute(Low(s[cut..], n - 1), d * Power(n - 1), Power(cut));
      assert d * (Power(cut) * Power(n - 1)) == (d * Power(n - 1)) * Power(cut) by {
        Associate(d, Power(n - 1), Power(cut));
      }
    }
  }

  lemma TopLimbs(s: seq<UInt32>, i: nat)
    requires i < |s|
    ensures Value(s[i..]) == s[i] + BASE * Value(s[i + 1..])
  {
    assert s[i..] == [s[i]] + s[i + 1..];
    ValueOfPrepend(s[i], s[i + 1..], 0);
  }

  lemma {:induction false} ZerosDenoteZero(s: seq<UInt32>, n: nat)
    requires forall i :: 0 <= i < |s| ==> s[i] == 0
    ensures Low(s, n) == 0
  {
    if n != 0 {
      ZerosDenoteZero(s, n - 1);
    }
  }

  /** Limbs shifted up by `limbs` positions. */
  lemma ValueOfShift(limbs: nat, s: seq<UInt32>)
    ensures Value(seq(limbs, _ => 0) + s) == Value(s) * Power(limbs)
  {
    var zeros: seq<UInt32> := seq(limbs, _ => 0);
    var t := zeros + s;
    ValueOfSplit(t, limbs);
    assert t[..limbs] == zeros && t[limbs..] == s;
    ZerosDenoteZero(zeros, limbs);
  }

  /** A trimmed vector of n limbs denotes at least BASE^(n-1). */
  lemma TrimmedLowerBound(s: seq<UInt32>)
    requires IsLimbs(s) && Trimmed(s) && |s| > 1
    ensures Value(s) >= Power(|s| - 1)
  {
    MulMonotonic(1, s[|s| - 1], Power(|s| - 1));
  }

  /** So its length is bounded by the size of the number. */
  lemma TrimmedLength(s: seq<UInt32>, n: nat)
    requires IsLimbs(s) && Trimmed(s) && n >= 1 && Value(s) < Power(n)
    ensures |s| <= n
  {
    if |s| > n {
      TrimmedLowerBound(s);
      PowerMonotonic(n, |s| - 1);
    }
  }

  /** Limb-by-limb comparison from the top decides the order of the denoted numbers. */
  lemma {:induction false} TopLimbDecides(s: seq<UInt32>, t: seq<UInt32>, n: nat, k: nat)
    requires IsLimbs(s) && IsLimbs(t) && k < n
    requires forall i :: k < i < n ==> At(s, i) == At(t, i)
    requires At(s, k) < At(t, k)
    ensures Low(s, n) < Low(t, n)
    decreases n
  {
    if n == k + 1 {
      LowBound(s, k);
      MulMonotonic(At(s, k) + 1, At(t, k), Power(k));
      Distribute(At(s, k), 1, Power(k));
    } else {
      TopLimbDecides(s, t, n - 1, k);
      assert At(s, n - 1) == At(t, n - 1);
    }
  }

  /** A number has one trimmed non-empty limb vector. */
  lemma {:induction false} TrimmedIsUnique(s: seq<UInt32>, t: seq<UInt32>)
    requires IsLimbs(s) && IsLimbs(t) && Trimmed(s) && Trimmed(t) && |s| >= 1 && |t| >= 1
    requires Value(s) == Value(t)
    ensures s == t
  {
    LowBound(s, |s|);
    LowBound(t, |t|);
    TrimmedLength(s, |t|);
    TrimmedLength(t, |s|);
    EqualLow(s, t, |s|);
    assert forall i :: 0 <= i < |s| ==> s[i] == At(s, i) && t[i] == At(t, i);
  }

  lemma {:induction false} EqualLow(s: seq<UInt32>, t: seq<UInt32>, n: nat)
    requires IsLimbs(s) && IsLimbs(t) && Low(s, n) == Low(t, n)
    ensures forall i :: 0 <= i < n ==> At(s, i) == At(t, i)
  {
    if n != 0 {
      if At(s, n - 1) < At(t, n - 1) {
        TopLimbDecides(s, t, n, n - 1);
      } else if At(t, n - 1) < At(s, n - 1) {
        TopLimbDecides(t, s, n, n - 1);
      }
      EqualLow(s, t, n - 1);
    }
  }
}
