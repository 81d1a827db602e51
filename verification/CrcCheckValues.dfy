/**
 * Check values: the published checksums of the text "123456789" by CRC-32 in either bit order.  Words of bits are
 * compared with machine words, on which the steps can be computed.
 */
module CrcCheckValues {
  import opened Bits
  import opened CrcAlgebra
  import opened Crc

  // ----- machine words

  /** The lowest n bits of a machine word, lowest first. */
  function BitsOf(x: bv32, n: nat): (w: Word)
    ensures |w| == n
    decreases n
  {
    if n == 0 then [] else [x & 1 == 1] + BitsOf(x >> 1, n - 1)
  }

  lemma {:induction false} XorBits(a: bv32, b: bv32, c: bv32, n: nat)
    requires c == a ^ b
    ensures Xor(BitsOf(a, n), BitsOf(b, n)) == BitsOf(c, n)
    decreases n
  {
    if n > 0 {
      var p, q, r := a & 1 == 1, b & 1 == 1, c & 1 == 1;
      var a', b', c' := a >> 1, b >> 1, c >> 1;
      XorFacts(a, b);
      XorBits(a', b', c', n - 1);
      FirstBit(a, n, p, a');
      FirstBit(b, n, q, b');
      FirstBit(c, n, r, c');
      XorJoin(BitsOf(a, n), BitsOf(b, n), BitsOf(c, n), p, q, r, BitsOf(a', n - 1), BitsOf(b', n - 1),
          BitsOf(c', n - 1));
    }
  }

  lemma FirstBit(x: bv32, n: nat, first: bool, rest: bv32)
    requires n > 0 && first == (x & 1 == 1) && rest == x >> 1
    ensures BitsOf(x, n) == [first] + BitsOf(rest, n - 1)
  {
  }

  lemma XorJoin(a: Word, b: Word, c: Word, p: bool, q: bool, r: bool, u: Word, v: Word, w: Word)
    requires a == [p] + u && b == [q] + v && c == [r] + w && r == (p != q) && |u| == |v| && w == Xor(u, v)
    ensures Xor(a, b) == c
  {
  }

  lemma XorFacts(a: bv32, b: bv32)
    ensures (a ^ b) >> 1 == (a >> 1) ^ (b >> 1)
    ensures ((a ^ b) & 1 == 1) == ((a & 1 == 1) != (b & 1 == 1))
  {
  }

  /** x has no bit from number n on. */
  predicate Below(x: bv32, n: nat)
    decreases n
  {
    if n == 0 then x == 0 else Below(x >> 1, n - 1)
  }

  lemma {:induction false} ZeroAbove(x: bv32, n: nat)
    requires Below(x, n)
    ensures BitsOf(x, n + 1) == BitsOf(x, n) + [false]
    decreases n
  {
    if n == 0 {
      assert x & 1 == 0;
      assert BitsOf(x, 1) == [false] + BitsOf(x >> 1, 0);
    } else {
      ZeroAbove(x >> 1, n - 1);
      assert BitsOf(x, n + 1) == [x & 1 == 1] + BitsOf(x >> 1, n);
    }
  }

  /** b is 2 to the power of n. */
  predicate IsPower(b: bv32, n: nat)
    decreases n
  {
    if n == 0 then b == 1 else b & 1 == 0 && b != 0 && IsPower(b >> 1, n - 1)
  }

  lemma {:induction false} BelowPower(x: bv32, b: bv32, n: nat)
    requires IsPower(b, n) && x < b
    ensures Below(x, n)
    decreases n
  {
    if n > 0 {
      var y, c := x >> 1, b >> 1;
      HalfBelow(x, b, y, c);
      BelowPower(y, c, n - 1);
    } else {
      BelowOne(x);
    }
  }

  lemma HalfBelow(x: bv32, b: bv32, y: bv32, c: bv32)
    requires x < b && b & 1 == 0 && y == x >> 1 && c == b >> 1
    ensures y < c
  {
  }

  lemma BelowOne(x: bv32)
    requires x < 1
    ensures x == 0
  {
  }

  /** 0x80000000 is 2 to the power of 31. */
  lemma TopBit()
    ensures IsPower(0x80000000, 31)
  {
    assert IsPower(0x1, 0) && IsPower(0x2, 1) && IsPower(0x4, 2) && IsPower(0x8, 3);
    assert IsPower(0x10, 4) && IsPower(0x20, 5) && IsPower(0x40, 6) && IsPower(0x80, 7);
    assert IsPower(0x100, 8) && IsPower(0x200, 9) && IsPower(0x400, 10) && IsPower(0x800, 11);
    assert IsPower(0x1000, 12) && IsPower(0x2000, 13) && IsPower(0x4000, 14) && IsPower(0x8000, 15);
    assert IsPower(0x10000, 16) && IsPower(0x20000, 17) && IsPower(0x40000, 18) && IsPower(0x80000, 19);
    assert IsPower(0x100000, 20) && IsPower(0x200000, 21) && IsPower(0x400000, 22) && IsPower(0x800000, 23);
    assert IsPower(0x1000000, 24) && IsPower(0x2000000, 25) && IsPower(0x4000000, 26) && IsPower(0x8000000, 27);
    assert IsPower(0x10000000, 28) && IsPower(0x20000000, 29) && IsPower(0x40000000, 30) && IsPower(0x80000000, 31);
  }

  lemma RightBits(x: bv32)
    ensures ShiftRight(BitsOf(x, 32), 1) == BitsOf(x >> 1, 32)
  {
    TopBit();
    assert x >> 1 < 0x80000000;
    BelowPower(x >> 1, 0x80000000, 31);
    ZeroAbove(x >> 1, 31);
    assert BitsOf(x, 32)[1..] == BitsOf(x >> 1, 31);
    assert Zero(1) == [false];
  }

  // ----- steps

  function StepOf(p: bv32, c: bv32): bv32 {
    if c & 1 == 1 then (c >> 1) ^ p else c >> 1
  }

  function FourSteps(p: bv32, c: bv32): bv32 {
    StepOf(p, StepOf(p, StepOf(p, StepOf(p, c))))
  }

  function ByteOf(p: bv32, c: bv32, b: bv32): bv32 {
    FourSteps(p, FourSteps(p, c ^ b))
  }

  lemma StepBits(p: bv32, c: bv32)
    ensures StepR(BitsOf(p, 32), BitsOf(c, 32)) == BitsOf(StepOf(p, c), 32)
  {
    RightBits(c);
    FirstBit(c, 32, c & 1 == 1, c >> 1);
    SubtractBits(p, c >> 1, (c >> 1) ^ p, c & 1 == 1, BitsOf(c, 32));
  }

  lemma SubtractBits(p: bv32, half: bv32, less: bv32, odd: bool, w: Word)
    requires |w| == 32 && w[0] == odd && ShiftRight(w, 1) == BitsOf(half, 32) && less == half ^ p
    ensures StepR(BitsOf(p, 32), w) == BitsOf(if odd then less else half, 32)
  {
    XorBits(half, p, less, 32);
  }

  lemma FourBits(p: bv32, c: bv32)
    ensures StepsR(BitsOf(p, 32), BitsOf(c, 32), 4) == BitsOf(FourSteps(p, c), 32)
  {
    var w := BitsOf(p, 32);
    var c1 := StepOf(p, c);
    var c2 := StepOf(p, c1);
    var c3 := StepOf(p, c2);
    StepBits(p, c);
    StepBits(p, c1);
    StepBits(p, c2);
    StepBits(p, c3);
    assert StepsR(w, BitsOf(c2, 32), 2) == StepsR(w, BitsOf(c3, 32), 1) == StepR(w, BitsOf(c3, 32)) by {
      assert StepsR(w, StepR(w, BitsOf(c3, 32)), 0) == StepR(w, BitsOf(c3, 32));
    }
  }

  lemma ByteBits(p: bv32, c: bv32, b: bv32, byte: Byte)
    requires BitsOf(b, 32) == Widen(byte, 32)
    ensures ByteR(BitsOf(p, 32), BitsOf(c, 32), byte) == BitsOf(ByteOf(p, c, b), 32)
  {
    XorBits(c, b, c ^ b, 32);
    StepsAdd(BitsOf(p, 32), BitsOf(c ^ b, 32), 4, 4);
    FourBits(p, c ^ b);
    FourBits(p, FourSteps(p, c ^ b));
  }

  // ----- the text

  lemma {:induction false} WidenBits(x: bv32, n: nat, more: nat)
    requires Below(x, n)
    ensures BitsOf(x, n + more) == BitsOf(x, n) + Zero(more)
    decreases n + more
  {
    if n > 0 {
      WidenBits(x >> 1, n - 1, more);
      FirstBit(x, n + more, x & 1 == 1, x >> 1);
      FirstBit(x, n, x & 1 == 1, x >> 1);
    } else if more > 0 {
      WidenBits(0, 0, more - 1);
      FirstBit(0, more, false, 0);
      assert Zero(more) == [false] + Zero(more - 1);
    }
  }

  /** The bytes of the text "123456789". */
  function Digits(): (data: seq<Byte>)
    ensures |data| == 9
  {
    [BitsOf(0x31, 8), BitsOf(0x32, 8), BitsOf(0x33, 8), BitsOf(0x34, 8), BitsOf(0x35, 8),
     BitsOf(0x36, 8), BitsOf(0x37, 8), BitsOf(0x38, 8), BitsOf(0x39, 8)]
  }

  /** A byte of the text takes the register from one number to the next. */
  lemma DigitUpdate(c: bv32, b: bv32, c': bv32)
    requires b < 0x100 && ByteOf(0xEDB88320, c, b) == c'
    ensures ByteR(BitsOf(0xEDB88320, 32), BitsOf(c, 32), BitsOf(b, 8)) == BitsOf(c', 32)
  {
    assert IsPower(0x1, 0) && IsPower(0x2, 1) && IsPower(0x4, 2) && IsPower(0x8, 3);
    assert IsPower(0x10, 4) && IsPower(0x20, 5) && IsPower(0x40, 6) && IsPower(0x80, 7) && IsPower(0x100, 8);
    BelowPower(b, 0x100, 8);
    WidenBits(b, 8, 24);
    ByteBits(0xEDB88320, c, b, BitsOf(b, 8));
  }

  lemma FirstOf(p: Word, c: Word, data: seq<Byte>, i: nat, c': Word)
    requires |p| == |c| == |c'| >= 8 && i < |data| && ByteR(p, c, data[i]) == c'
    ensures MessageR(p, c, data[i..]) == MessageR(p, c', data[i + 1..])
  {
    assert data[i..][1..] == data[i + 1..];
  }

  lemma Digit1()
    ensures ByteOf(0xEDB88320, 0xFFFFFFFF, 0x31) == 0x7C231048
  {
  }

  lemma Digit2()
    ensures ByteOf(0xEDB88320, 0x7C231048, 0x32) == 0xB0ACBB32
  {
  }

  lemma Digit3()
    ensures ByteOf(0xEDB88320, 0xB0ACBB32, 0x33) == 0x77B79C2D
  {
  }

  lemma Digit4()
    ensures ByteOf(0xEDB88320, 0x77B79C2D, 0x34) == 0x641C1F5C
  {
  }

  lemma Digit5()
    ensures ByteOf(0xEDB88320, 0x641C1F5C, 0x35) == 0x340AC5E3
  {
  }

  lemma Digit6()
    ensures ByteOf(0xEDB88320, 0x340AC5E3, 0x36) == 0xF68D2C9E
  {
  }

  lemma Digit7()
    ensures ByteOf(0xEDB88320, 0xF68D2C9E, 0x37) == 0xAFFC9660
  {
  }

  lemma Digit8()
    ensures ByteOf(0xEDB88320, 0xAFFC9660, 0x38) == 0x651F2550
  {
  }

  lemma Digit9()
    ensures ByteOf(0xEDB88320, 0x651F2550, 0x39) == 0x340BC6D9
  {
  }

  /** The register after the text. */
  lemma Register()
    ensures MessageR(BitsOf(0xEDB88320, 32), BitsOf(0xFFFFFFFF, 32), Digits()) == BitsOf(0x340BC6D9, 32)
  {
    var p, data := BitsOf(0xEDB88320, 32), Digits();
    assert data[0..] == data && data[9..] == [];
    Digit1();
    DigitUpdate(0xFFFFFFFF, 0x31, 0x7C231048);
    FirstOf(p, BitsOf(0xFFFFFFFF, 32), data, 0, BitsOf(0x7C231048, 32));
    Digit2();
    DigitUpdate(0x7C231048, 0x32, 0xB0ACBB32);
    FirstOf(p, BitsOf(0x7C231048, 32), data, 1, BitsOf(0xB0ACBB32, 32));
    Digit3();
    DigitUpdate(0xB0ACBB32, 0x33, 0x77B79C2D);
    FirstOf(p, BitsOf(0xB0ACBB32, 32), data, 2, BitsOf(0x77B79C2D, 32));
    Digit4();
    DigitUpdate(0x77B79C2D, 0x34, 0x641C1F5C);
    FirstOf(p, BitsOf(0x77B79C2D, 32), data, 3, BitsOf(0x641C1F5C, 32));
    Digit5();
    DigitUpdate(0x641C1F5C, 0x35, 0x340AC5E3);
    FirstOf(p, BitsOf(0x641C1F5C, 32), data, 4, BitsOf(0x340AC5E3, 32));
    Digit6();
    DigitUpdate(0x340AC5E3, 0x36, 0xF68D2C9E);
    FirstOf(p, BitsOf(0x340AC5E3, 32), data, 5, BitsOf(0xF68D2C9E, 32));
    Digit7();
    DigitUpdate(0xF68D2C9E, 0x37, 0xAFFC9660);
    FirstOf(p, BitsOf(0xF68D2C9E, 32), data, 6, BitsOf(0xAFFC9660, 32));
    Digit8();
    DigitUpdate(0xAFFC9660, 0x38, 0x651F2550);
    FirstOf(p, BitsOf(0xAFFC9660, 32), data, 7, BitsOf(0x651F2550, 32));
    Digit9();
    DigitUpdate(0x651F2550, 0x39, 0x340BC6D9);
    FirstOf(p, BitsOf(0x651F2550, 32), data, 8, BitsOf(0x340BC6D9, 32));
  }

  // ----- CRC-32

  predicate IsIeee(m: Model) {
    && m.bits == 32 && m.polynomial == BitsOf(0xEDB88320, 32) && m.init == BitsOf(0xFFFFFFFF, 32)
    && m.refin && m.refout && m.xorout == BitsOf(0xFFFFFFFF, 32)
  }

  lemma IeeeRegister(m: Model)
    requires IsIeee(m)
    ensures Update(m, m.init, Digits()) == BitsOf(0x340BC6D9, 32)
  {
    Register();
    UpdateIsMessage(m, m.init, Digits());
  }

  /** CRC-32 of "123456789" is 0xCBF43926. */
  lemma IeeeCheck(m: Model)
    requires IsIeee(m)
    ensures Checksum(m, Digits()) == BitsOf(0xCBF43926, 32)
  {
    IeeeRegister(m);
    XorBits(0x340BC6D9, 0xFFFFFFFF, 0xCBF43926, 32);
  }
}
