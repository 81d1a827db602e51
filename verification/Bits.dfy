/** Machine words as bit sequences, least significant bit first.  The CRC engines are templates over
    the word width; this representation serves every width at once. */
module Bits {
  type Word = seq<bool>

  function Zero(width: nat): (w: Word)
    ensures |w| == width && forall i :: 0 <= i < width ==> !w[i]
  {
    seq(width, _ => false)
  }

  /** Bitwise exclusive or. */
  function Xor(a: Word, b: Word): (r: Word)
    requires |a| == |b|
    ensures |r| == |a| && forall i :: 0 <= i < |a| ==> r[i] == (a[i] != b[i])
  {
    seq(|a|, i requires 0 <= i < |a| => a[i] != b[i])
  }

  /** `value >> n` for n not above the width. */
  function ShiftRight(a: Word, n: nat): (r: Word)
    requires n <= |a|
    ensures |r| == |a|
  {
    a[n..] + Zero(n)
  }

  /** `value << n`, dropping what leaves the word. */
  function ShiftLeft(a: Word, n: nat): (r: Word)
    requires n <= |a|
    ensures |r| == |a|
  {
    Zero(n) + a[..|a| - n]
  }

  /** Zero extension to a wider word. */
  function Widen(a: Word, width: nat): (r: Word)
    requires |a| <= width
    ensures |r| == width
  {
    a + Zero(width - |a|)
  }

  function Reverse(a: Word): (r: Word)
    ensures |r| == |a| && forall i :: 0 <= i < |a| ==> r[i] == a[|a| - 1 - i]
  {
    seq(|a|, i requires 0 <= i < |a| => a[|a| - 1 - i])
  }

  // ----- numbers

  /** The number a word denotes. */
  function ToNat(a: Word): nat {
    if a == [] then 0 else (if a[0] then 1 else 0) + 2 * ToNat(a[1..])
  }

  /** The word of the given width that denotes n modulo 2^width. */
  function FromNat(n: nat, width: nat): (w: Word)
    ensures |w| == width
    decreases width
  {
    if width == 0 then [] else [n % 2 == 1] + FromNat(n / 2, width - 1)
  }

  function Pow2(n: nat): (p: nat)
    ensures p >= 1
  {
    if n == 0 then 1 else 2 * Pow2(n - 1)
  }

  lemma {:induction false} ToNatBound(a: Word)
    ensures ToNat(a) < Pow2(|a|)
  {
    if a != [] {
      ToNatBound(a[1..]);
    }
  }

  lemma {:induction false} FromToNat(a: Word)
    ensures FromNat(ToNat(a), |a|) == a
  {
    if a != [] {
      FromToNat(a[1..]);
    }
  }

  lemma {:induction false} ToFromNat(n: nat, width: nat)
    requires n < Pow2(width)
    ensures ToNat(FromNat(n, width)) == n
    decreases width
  {
    if width != 0 {
      ToFromNat(n / 2, width - 1);
      assert FromNat(n, width)[1..] == FromNat(n / 2, width - 1);
    }
  }

  // ----- exclusive or is a group operation, and shifts distribute over it

  lemma XorZero(a: Word)
    ensures Xor(a, Zero(|a|)) == a && Xor(Zero(|a|), a) == a
  {
  }

  lemma XorAssoc(a: Word, b: Word, c: Word)
    requires |a| == |b| == |c|
    ensures Xor(Xor(a, b), c) == Xor(a, Xor(b, c))
  {
  }

  lemma XorComm(a: Word, b: Word)
    requires |a| == |b|
    ensures Xor(a, b) == Xor(b, a)
  {
  }

  lemma XorCancel(a: Word, b: Word, c: Word)
    requires |a| == |b| == |c| && Xor(a, c) == Xor(b, c)
    ensures a == b
  {
    forall i | 0 <= i < |a| ensures a[i] == b[i] {
      assert Xor(a, c)[i] == Xor(b, c)[i];
    }
  }

  lemma ReverseXor(a: Word, b: Word)
    requires |a| == |b|
    ensures Reverse(Xor(a, b)) == Xor(Reverse(a), Reverse(b))
  {
  }

  lemma ReverseTwice(a: Word)
    ensures Reverse(Reverse(a)) == a
  {
  }
}
