/**
 * CRCs as arithmetic on natural numbers, written as the source writes them: an independent definition of the checksum
 * of every model, which the words of bits agree with and on which published check values can be computed.
 */
module CrcNumbers {
  import opened Arithmetic
  import opened Bits
  import opened CrcAlgebra
  import opened Crc

  // ----- exclusive or, shifts and reversal of numbers

  function XorOf(a: nat, b: nat): (r: nat)
    decreases a + b
  {
    if a == 0 && b == 0 then 0 else (if a % 2 != b % 2 then 1 else 0) + 2 * XorOf(a / 2, b / 2)
  }

  /** The number whose first `width` bits are those of n from high to low. */
  function ReverseOf(n: nat, width: nat): (r: nat)
    decreases width
  {
    if width == 0 then 0 else (n % 2) * Pow2(width - 1) + ReverseOf(n / 2, width - 1)
  }

  lemma {:induction false} XorNumber(a: Word, b: Word)
    requires |a| == |b|
    ensures ToNat(Xor(a, b)) == XorOf(ToNat(a), ToNat(b))
  {
    if a != [] {
      assert Xor(a, b)[1..] == Xor(a[1..], b[1..]);
      XorNumber(a[1..], b[1..]);
      XorOnce(a[0], b[0], ToNat(a[1..]), ToNat(b[1..]), ToNat(a), ToNat(b));
    }
  }

  lemma XorOnce(p: bool, q: bool, u: nat, v: nat, a: nat, b: nat)
    requires a == (if p then 1 else 0) + 2 * u && b == (if q then 1 else 0) + 2 * v
    ensures XorOf(a, b) == (if p != q then 1 else 0) + 2 * XorOf(u, v)
  {
    assert a / 2 == u && b / 2 == v;
  }

  lemma {:induction false} ConcatNumber(a: Word, b: Word)
    ensures ToNat(a + b) == ToNat(a) + Pow2(|a|) * ToNat(b)
  {
    if a == [] {
      assert a + b == b;
    } else {
      assert (a + b)[1..] == a[1..] + b;
      ConcatNumber(a[1..], b);
      Associate(2, Pow2(|a[1..]|), ToNat(b));
    }
  }

  lemma {:induction false} ZeroNumber(width: nat)
    ensures ToNat(Zero(width)) == 0
  {
    if width != 0 {
      assert Zero(width)[1..] == Zero(width - 1);
      ZeroNumber(width - 1);
    }
  }

  lemma {:induction false} WidenedNumber(a: Word, n: nat)
    ensures ToNat(a + Zero(n)) == ToNat(a)
  {
    if a == [] {
      assert a + Zero(n) == Zero(n);
      ZeroNumber(n);
    } else {
      assert (a + Zero(n))[1..] == a[1..] + Zero(n);
      WidenedNumber(a[1..], n);
    }
  }

  lemma {:induction false} AppendNumber(a: Word, bit: bool)
    ensures ToNat(a + [bit]) == ToNat(a) + if bit then Pow2(|a|) else 0
  {
    if a != [] {
      assert (a + [bit])[1..] == a[1..] + [bit];
      AppendNumber(a[1..], bit);
    } else {
      assert a + [bit] == [bit] && [bit][1..] == [];
    }
  }

  lemma HalfNumber(c: Word, n: nat)
    requires |c| >= 1 && n == ToNat(c)
    ensures ToNat(ShiftRight(c, 1)) == n / 2 && c[0] == (n % 2 == 1)
  {
    WidenedNumber(c[1..], 1);
  }

  lemma ModOnce(x: nat, m: nat)
    requires 0 < m && x < 2 * m
    ensures x % m == if x < m then x else x - m
  {
    if x >= m {
      AddMultiple(x - m, 1, m);
    }
  }

  lemma TopNumber(c: Word, n: nat, half: nat, all: nat)
    requires |c| >= 1 && n == ToNat(c) && half == Pow2(|c| - 1) && all == Pow2(|c|)
    ensures c[|c| - 1] == (n >= half)
    ensures ToNat(ShiftLeft(c, 1)) == 2 * n % all
  {
    var front, top := c[..|c| - 1], c[|c| - 1];
    assert c == front + [top];
    AppendNumber(front, top);
    ToNatBound(front);
    assert ShiftLeft(c, 1)[1..] == front;
    TopArithmetic(ToNat(front), top, half, all, n);
  }

  lemma TopArithmetic(front: nat, top: bool, half: nat, all: nat, n: nat)
    requires front < half && all == 2 * half && n == front + if top then half else 0
    ensures top == (n >= half) && 2 * n % all == 2 * front
  {
    ModOnce(2 * n, all);
  }

  lemma {:induction false} ReverseNumber(c: Word)
    ensures ToNat(Reverse(c)) == ReverseOf(ToNat(c), |c|)
  {
    if c != [] {
      assert Reverse(c) == Reverse(c[1..]) + [c[0]];
      AppendNumber(Reverse(c[1..]), c[0]);
      ReverseNumber(c[1..]);
    }
  }

  // ----- the engine

  /** A model, in numbers. */
  datatype Numbers = Numbers(bits: nat, polynomial: nat, init: nat, refin: bool, refout: bool, xorout: nat)

  function NumbersOf(m: Model): Numbers {
    Numbers(m.bits, ToNat(m.polynomial), ToNat(m.init), m.refin, m.refout, ToNat(m.xorout))
  }

  /** One step: a one shifted out at the bottom of a reflected register, or at the top of the other, subtracts the
      polynomial. */
  function StepOf(m: Numbers, c: nat): (r: nat)
    requires m.bits >= 1
  {
    if m.refin then
      if c % 2 == 1 then XorOf(c / 2, m.polynomial) else c / 2
    else
      if c >= Pow2(m.bits - 1) then XorOf(2 * c % Pow2(m.bits), m.polynomial) else 2 * c % Pow2(m.bits)
  }

  function StepsOf(m: Numbers, c: nat, n: nat): (r: nat)
    requires m.bits >= 1
    decreases n
  {
    if n == 0 then c else StepOf(m, StepsOf(m, c, n - 1))
  }

  /** A byte enters at the bottom of a reflected register, at the top of the other, and eight steps follow. */
  function ByteOf(m: Numbers, c: nat, b: nat): (r: nat)
    requires m.bits >= 8
  {
    StepsOf(m, XorOf(c, if m.refin then b else b * Pow2(m.bits - 8)), 8)
  }

  function UpdateOf(m: Numbers, c: nat, data: seq<nat>): (r: nat)
    requires m.bits >= 8
    decreases |data|
  {
    if data == [] then c else UpdateOf(m, ByteOf(m, c, data[0]), data[1..])
  }

  /** The output is reversed if its order differs from that of the input, and then masked. */
  function FinalOf(m: Numbers, c: nat): (r: nat) {
    XorOf(if m.refin == m.refout then c else ReverseOf(c, m.bits), m.xorout)
  }

  function ChecksumOf(m: Numbers, data: seq<nat>): (r: nat)
    requires m.bits >= 8
  {
    FinalOf(m, UpdateOf(m, m.init, data))
  }

  function BytesOf(data: seq<Byte>): (r: seq<nat>)
    ensures |r| == |data| && forall i :: 0 <= i < |data| ==> r[i] == ToNat(data[i])
  {
    seq(|data|, i requires 0 <= i < |data| => ToNat(data[i]))
  }

  // ----- agreement

  lemma StepNumber(m: Model, c: Word, m': Numbers, n: nat)
    requires m.Valid() && |c| == m.bits && m' == NumbersOf(m) && n == ToNat(c)
    ensures ToNat(Step(m, c)) == StepOf(m', n)
  {
    if m.refin {
      HalfNumber(c, n);
      XorNumber(ShiftRight(c, 1), m.polynomial);
    } else {
      TopNumber(c, n, Pow2(m.bits - 1), Pow2(m.bits));
      XorNumber(ShiftLeft(c, 1), m.polynomial);
    }
  }

  lemma {:induction false} StepsNumber(m: Model, c: Word, k: nat, m': Numbers, n: nat)
    requires m.Valid() && |c| == m.bits && m' == NumbersOf(m) && n == ToNat(c)
    ensures ToNat(Steps(m, c, k)) == StepsOf(m', n, k)
    decreases k
  {
    if k != 0 {
      StepsNumber(m, c, k - 1, m', n);
      NextNumber(m, c, k, m', n, Steps(m, c, k - 1), StepsOf(m', n, k - 1));
    }
  }

  lemma NextNumber(m: Model, c: Word, k: nat, m': Numbers, n: nat, d: Word, l: nat)
    requires m.Valid() && |c| == m.bits && m' == NumbersOf(m) && k > 0
    requires d == Steps(m, c, k - 1) && l == StepsOf(m', n, k - 1) && l == ToNat(d)
    ensures ToNat(Steps(m, c, k)) == StepsOf(m', n, k)
  {
    StepNumber(m, d, m', l);
  }

  lemma PlaceNumber(m: Model, b: Byte)
    requires m.Valid()
    ensures ToNat(Place(m, b)) == if m.refin then ToNat(b) else ToNat(b) * Pow2(m.bits - 8)
  {
    ConcatNumber(b, Zero(m.bits - 8));
    ZeroNumber(m.bits - 8);
    if !m.refin {
      var wide := Widen(b, m.bits);
      assert wide[..8] == b && ShiftLeft(wide, m.bits - 8) == Zero(m.bits - 8) + b;
      ConcatNumber(Zero(m.bits - 8), b);
    }
  }

  lemma ByteNumber(m: Model, c: Word, b: Byte)
    requires m.Valid() && |c| == m.bits
    ensures ToNat(ByteUpdate(m, c, b)) == ByteOf(NumbersOf(m), ToNat(c), ToNat(b))
  {
    PlaceNumber(m, b);
    XorNumber(c, Place(m, b));
    StepsNumber(m, Xor(c, Place(m, b)), 8, NumbersOf(m), ToNat(Xor(c, Place(m, b))));
  }

  lemma OneByte(m: Model, c: Word, b: Byte)
    requires m.Valid() && |c| == m.bits
    ensures Update(m, c, [b]) == ByteUpdate(m, c, b)
  {
    assert [b][..0] == [];
  }

  lemma {:induction false} UpdateNumber(m: Model, c: Word, data: seq<Byte>)
    requires m.Valid() && |c| == m.bits
    ensures ToNat(Update(m, c, data)) == UpdateOf(NumbersOf(m), ToNat(c), BytesOf(data))
    decreases |data|
  {
    if data != [] {
      FirstByte(m, c, data[0], data[1..], data);
      ByteNumber(m, c, data[0]);
      UpdateNumber(m, ByteUpdate(m, c, data[0]), data[1..]);
      assert BytesOf(data)[1..] == BytesOf(data[1..]);
    }
  }

  lemma FirstByte(m: Model, c: Word, b: Byte, rest: seq<Byte>, data: seq<Byte>)
    requires m.Valid() && |c| == m.bits && data == [b] + rest
    ensures Update(m, c, data) == Update(m, ByteUpdate(m, c, b), rest)
  {
    UpdateConcat(m, c, [b], rest);
    OneByte(m, c, b);
  }

  lemma FinalNumber(m: Model, c: Word)
    requires m.Valid() && |c| == m.bits
    ensures ToNat(Finalized(m, c)) == FinalOf(NumbersOf(m), ToNat(c))
  {
    ReverseNumber(c);
    XorNumber(if m.refin != m.refout then Reverse(c) else c, m.xorout);
  }

  /** The checksum of every message, by every model, is the number that arithmetic gives. */
  lemma ChecksumNumber(m: Model, data: seq<Byte>)
    requires m.Valid()
    ensures ToNat(Checksum(m, data)) == ChecksumOf(NumbersOf(m), BytesOf(data))
  {
    UpdateNumber(m, m.init, data);
    FinalNumber(m, Update(m, m.init, data));
  }
}
