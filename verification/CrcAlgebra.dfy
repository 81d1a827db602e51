/** The algebra of reflected CRCs: one shift-xor step is linear over exclusive or, so any number of
    steps is, and a message update decomposes into table entries. */
module CrcAlgebra {
  import opened Bits

  type Byte = w: Word | |w| == 8 witness Zero(8)

  /** One step: shift right, and subtract the polynomial when a one bit was shifted out. */
  function StepR(p: Word, c: Word): (r: Word)
    requires |p| == |c| >= 1
    ensures |r| == |c|
  {
    if c[0] then Xor(ShiftRight(c, 1), p) else ShiftRight(c, 1)
  }

  function StepsR(p: Word, c: Word, n: nat): (r: Word)
    requires |p| == |c| >= 1
    ensures |r| == |c|
    decreases n, |c|
  {
    if n == 0 then c else StepsR(p, StepR(p, c), n - 1)
  }

  /** One message byte: into the low bits, then eight steps. */
  function ByteR(p: Word, c: Word, b: Byte): (r: Word)
    requires |p| == |c| >= 8
    ensures |r| == |c|
  {
    StepsR(p, Xor(c, Widen(b, |c|)), 8)
  }

  function MessageR(p: Word, c: Word, data: seq<Byte>): (r: Word)
    requires |p| == |c| >= 8
    ensures |r| == |c|
    decreases |data|
  {
    if data == [] then c else MessageR(p, ByteR(p, c, data[0]), data[1..])
  }

  // ----- linearity

  lemma StepLinear(p: Word, a: Word, b: Word)
    requires |p| == |a| == |b| >= 1
    ensures StepR(p, Xor(a, b)) == Xor(StepR(p, a), StepR(p, b))
  {
    var l, r := StepR(p, Xor(a, b)), Xor(StepR(p, a), StepR(p, b));
    forall i | 0 <= i < |a| ensures l[i] == r[i] {
    }
  }

  lemma {:induction false} StepsLinear(p: Word, a: Word, b: Word, n: nat)
    requires |p| == |a| == |b| >= 1
    ensures StepsR(p, Xor(a, b), n) == Xor(StepsR(p, a, n), StepsR(p, b, n))
    decreases n
  {
    if n != 0 {
      StepLinear(p, a, b);
      StepsLinear(p, StepR(p, a), StepR(p, b), n - 1);
    }
  }

  lemma {:induction false} StepsAdd(p: Word, c: Word, m: nat, n: nat)
    requires |p| == |c| >= 1
    ensures StepsR(p, c, m + n) == StepsR(p, StepsR(p, c, m), n)
    decreases m
  {
    if m != 0 {
      StepsAdd(p, StepR(p, c), m - 1, n);
    }
  }

  /** Eight steps first, the rest after. */
  lemma StepsByte(p: Word, c: Word, rest: nat, all: nat, c': Word)
    requires |p| == |c| >= 1 && all == 8 + rest && c' == StepsR(p, c, 8)
    ensures StepsR(p, c, all) == StepsR(p, c', rest)
  {
    StepsAdd(p, c, 8, rest);
  }

  /** Zero bits at the bottom are shifted out without touching the rest. */
  lemma {:induction false} StepsOverZeros(p: Word, c: Word, n: nat)
    requires |p| == |c| >= 1 && n <= |c| && forall i :: 0 <= i < n ==> !c[i]
    ensures StepsR(p, c, n) == ShiftRight(c, n)
    decreases n
  {
    if n != 0 {
      var d := ShiftRight(c, 1);
      StepsOverZeros(p, d, n - 1);
      assert ShiftRight(d, n - 1) == ShiftRight(c, n);
    } else {
      assert ShiftRight(c, 0) == c;
    }
  }

  lemma {:induction false} MessageLinear(p: Word, a: Word, b: Word, data: seq<Byte>)
    requires |p| == |a| == |b| >= 8
    ensures MessageR(p, Xor(a, b), data) == Xor(StepsR(p, a, 8 * |data|), MessageR(p, b, data))
    decreases |data|
  {
    if data != [] {
      ByteLinear(p, a, b, data[0]);
      MessageLinear(p, StepsR(p, a, 8), ByteR(p, b, data[0]), data[1..]);
      StepsByte(p, a, 8 * |data[1..]|, 8 * |data|, StepsR(p, a, 8));
    }
  }

  lemma ByteLinear(p: Word, a: Word, b: Word, d: Byte)
    requires |p| == |a| == |b| >= 8
    ensures ByteR(p, Xor(a, b), d) == Xor(StepsR(p, a, 8), ByteR(p, b, d))
  {
    var wide := Widen(d, |a|);
    XorAssoc(a, b, wide);
    StepsLinear(p, a, Xor(b, wide), 8);
  }

  // ----- one byte at a time

  function LowByte(c: Word): Byte
    requires |c| >= 8
  {
    c[..8]
  }

  /** The byte update in table form: the low byte goes through the steps, the rest is shifted. */
  lemma ByteByTable(p: Word, c: Word, b: Byte)
    requires |p| == |c| >= 8
    ensures ByteR(p, c, b) == Xor(StepsR(p, Widen(Xor(LowByte(c), b), |c|), 8), ShiftRight(c, 8))
  {
    var w := |c|;
    ByteSplit(c, b);
    StepsSplit(p, Xor(c, Widen(b, w)), Widen(Xor(LowByte(c), b), w), Zero(8) + c[8..], ShiftRight(c, 8));
  }

  lemma ByteSplit(c: Word, b: Byte)
    requires |c| >= 8
    ensures var w := |c|;
            Xor(c, Widen(b, w)) == Xor(Widen(Xor(LowByte(c), b), w), Zero(8) + c[8..])
    ensures ShiftRight(Zero(8) + c[8..], 8) == ShiftRight(c, 8)
  {
    var w := |c|;
    var l, r := Xor(c, Widen(b, w)), Xor(Widen(Xor(LowByte(c), b), w), Zero(8) + c[8..]);
    forall i | 0 <= i < w ensures l[i] == r[i] {
    }
  }

  /** Eight steps over a sum whose second part has no low bits. */
  lemma StepsSplit(p: Word, whole: Word, first: Word, lifted: Word, tail: Word)
    requires |p| == |first| == |lifted| >= 8 && whole == Xor(first, lifted)
    requires (forall i :: 0 <= i < 8 ==> !lifted[i]) && ShiftRight(lifted, 8) == tail
    ensures StepsR(p, whole, 8) == Xor(StepsR(p, first, 8), tail)
  {
    StepsLinear(p, first, lifted, 8);
    StepsOverZeros(p, lifted, 8);
  }

  lemma MessageCons(p: Word, c: Word, data: seq<Byte>, c': Word)
    requires |p| == |c| >= 8 && |data| >= 1 && c' == ByteR(p, c, data[0])
    ensures MessageR(p, c, data) == MessageR(p, c', data[1..])
  {
  }

  /** Peeling the first byte off a message. */
  lemma PeelByte(p: Word, c: Word, data: seq<Byte>)
    requires |p| == |c| >= 8 && |data| >= 1
    ensures MessageR(p, c, data) ==
              Xor(StepsR(p, Widen(Xor(LowByte(c), data[0]), |c|), 8 * |data|), MessageR(p, ShiftRight(c, 8), data[1..]))
  {
    var first, rest := Widen(Xor(LowByte(c), data[0]), |c|), data[1..];
    var x, y := StepsR(p, first, 8), ShiftRight(c, 8);
    ByteByTable(p, c, data[0]);
    MessageCons(p, c, data, Xor(x, y));
    MessageLinear(p, x, y, rest);
    StepsByte(p, first, 8 * |rest|, 8 * |data|, x);
  }

  // ----- a block of bytes at once

  /** Byte j of a word, zero beyond its top. */
  function ByteAt(c: Word, j: nat): Byte
    requires |c| % 8 == 0
  {
    if 8 * j + 8 <= |c| then c[8 * j..8 * j + 8] else Zero(8)
  }

  /** The sum of what each byte of a block contributes, from byte j on. */
  ghost function BlockSum(p: Word, c: Word, data: seq<Byte>, j: nat): (r: Word)
    requires |p| == |c| >= 8 && |c| % 8 == 0 && j <= |data|
    ensures |r| == |c|
    decreases |data| - j
  {
    if j == |data| then Zero(|c|)
    else Xor(StepsR(p, Widen(Xor(ByteAt(c, j), data[j]), |c|), 8 * (|data| - j)), BlockSum(p, c, data, j + 1))
  }

  ghost function ShiftBytes(c: Word, j: nat): (r: Word)
    requires |c| >= 8
    ensures |r| == |c|
  {
    if j == 0 then c else ShiftRight(ShiftBytes(c, j - 1), 8)
  }

  lemma {:induction false} ShiftBytesBits(c: Word, j: nat)
    requires |c| >= 8
    ensures forall i :: 0 <= i < |c| ==> ShiftBytes(c, j)[i] == (i + 8 * j < |c| && c[i + 8 * j])
  {
    if j != 0 {
      ShiftBytesBits(c, j - 1);
    }
  }

  lemma LowByteOfShift(c: Word, j: nat)
    requires |c| >= 8 && |c| % 8 == 0
    ensures LowByte(ShiftBytes(c, j)) == ByteAt(c, j)
  {
    ShiftBytesBits(c, j);
  }

  lemma {:induction false} BlockFrom(p: Word, c: Word, data: seq<Byte>, j: nat)
    requires |p| == |c| >= 8 && |c| % 8 == 0 && j <= |data| && |c| <= 8 * |data|
    ensures MessageR(p, ShiftBytes(c, j), data[j..]) == BlockSum(p, c, data, j)
    decreases |data| - j
  {
    if j == |data| {
      ShiftBytesBits(c, j);
      assert data[j..] == [] && ShiftBytes(c, j) == Zero(|c|);
    } else {
      var d, rest := data[j..], data[j + 1..];
      assert d[1..] == rest;
      LowByteOfShift(c, j);
      PeelWith(p, ShiftBytes(c, j), d, ByteAt(c, j), 8 * (|data| - j), ShiftBytes(c, j + 1), rest);
      BlockFrom(p, c, data, j + 1);
    }
  }

  lemma PeelWith(p: Word, c: Word, data: seq<Byte>, low: Byte, steps: nat, shifted: Word, rest: seq<Byte>)
    requires |p| == |c| >= 8 && |data| >= 1
    requires low == LowByte(c) && steps == 8 * |data| && shifted == ShiftRight(c, 8) && rest == data[1..]
    ensures MessageR(p, c, data) == Xor(StepsR(p, Widen(Xor(low, data[0]), |c|), steps), MessageR(p, shifted, rest))
  {
    PeelByte(p, c, data);
  }

  /** A block at least as long as the word: every byte contributes one table entry. */
  lemma BlockIsSum(p: Word, c: Word, data: seq<Byte>)
    requires |p| == |c| >= 8 && |c| % 8 == 0 && |c| <= 8 * |data|
    ensures MessageR(p, c, data) == BlockSum(p, c, data, 0)
  {
    BlockFrom(p, c, data, 0);
    assert data[0..] == data;
  }

  lemma {:induction false} MessageConcat(p: Word, c: Word, x: seq<Byte>, y: seq<Byte>)
    requires |p| == |c| >= 8
    ensures MessageR(p, c, x + y) == MessageR(p, MessageR(p, c, x), y)
    decreases |x|
  {
    if x == [] {
      assert x + y == y;
    } else {
      MessageConcat(p, ByteR(p, c, x[0]), x[1..], y);
      assert (x + y)[1..] == x[1..] + y;
    }
  }

  // ----- detection of changes inside a window

  /** The bits of a byte string, first byte lowest. */
  function Concat(data: seq<Byte>): (r: Word)
    ensures |r| == 8 * |data|
  {
    if data == [] then [] else data[0] + Concat(data[1..])
  }

  lemma {:induction false} ConcatInjective(x: seq<Byte>, y: seq<Byte>)
    requires |x| == |y| && Concat(x) == Concat(y)
    ensures x == y
  {
    if x != [] {
      assert Concat(x)[..8] == x[0] && Concat(y)[..8] == y[0];
      assert Concat(x)[8..] == Concat(x[1..]) && Concat(y)[8..] == Concat(y[1..]);
      ConcatInjective(x[1..], y[1..]);
      assert x == [x[0]] + x[1..] && y == [y[0]] + y[1..];
    }
  }

  /** A message not longer than the word is absorbed whole and then stepped through. */
  lemma {:induction false} ShortMessage(p: Word, c: Word, data: seq<Byte>)
    requires |p| == |c| >= 8 && 8 * |data| <= |c|
    ensures MessageR(p, c, data) == StepsR(p, Xor(c, Widen(Concat(data), |c|)), 8 * |data|)
    decreases |data|
  {
    var w := |c|;
    if data == [] {
      assert Widen(Concat(data), w) == Zero(w);
      XorZero(c);
    } else {
      var rest := data[1..];
      var c' := ByteR(p, c, data[0]);
      ShortMessage(p, c', rest);
      AbsorbByte(p, c, data[0], Concat(rest));
      assert Concat(data) == data[0] + Concat(rest);
      StepsByte(p, Xor(c, Widen(Concat(data), w)), 8 * |rest|, 8 * |data|, Xor(c', Widen(Concat(rest), w)));
    }
  }

  /** Absorbing one byte early or together with the rest makes no difference. */
  lemma AbsorbByte(p: Word, c: Word, d: Byte, rest: Word)
    requires |p| == |c| >= 8 && 8 + |rest| <= |c|
    ensures StepsR(p, Xor(c, Widen(d + rest, |c|)), 8) == Xor(ByteR(p, c, d), Widen(rest, |c|))
  {
    var w := |c|;
    AbsorbSplit(c, d, rest);
    StepsSplit(p, Xor(c, Widen(d + rest, w)), Xor(c, Widen(d, w)), ShiftLeft(Widen(rest, w), 8), Widen(rest, w));
  }

  lemma AbsorbSplit(c: Word, d: Byte, rest: Word)
    requires 8 + |rest| <= |c|
    ensures var w := |c|;
            Xor(c, Widen(d + rest, w)) == Xor(Xor(c, Widen(d, w)), ShiftLeft(Widen(rest, w), 8))
    ensures ShiftRight(ShiftLeft(Widen(rest, |c|), 8), 8) == Widen(rest, |c|)
  {
    var w := |c|;
    var wide := Widen(d + rest, w);
    var lifted := ShiftLeft(Widen(rest, w), 8);
    assert wide == Xor(Widen(d, w), lifted);
    XorAssoc(c, Widen(d, w), lifted);
  }

  /** The top bit of the polynomial makes a step reversible. */
  lemma StepInjective(p: Word, a: Word, b: Word)
    requires |p| == |a| == |b| >= 1 && p[|p| - 1] && StepR(p, a) == StepR(p, b)
    ensures a == b
  {
    var w := |a|;
    assert StepR(p, a)[w - 1] == a[0] && StepR(p, b)[w - 1] == b[0];
    forall i | 1 <= i < w ensures a[i] == b[i] {
      assert StepR(p, a)[i - 1] == StepR(p, b)[i - 1];
    }
  }

  lemma {:induction false} StepsInjective(p: Word, a: Word, b: Word, n: nat)
    requires |p| == |a| == |b| >= 1 && p[|p| - 1] && StepsR(p, a, n) == StepsR(p, b, n)
    ensures a == b
    decreases n
  {
    if n != 0 {
      StepsInjective(p, StepR(p, a), StepR(p, b), n - 1);
      StepInjective(p, a, b);
    }
  }

  lemma {:induction false} MessageInjective(p: Word, a: Word, b: Word, data: seq<Byte>)
    requires |p| == |a| == |b| >= 8 && p[|p| - 1] && MessageR(p, a, data) == MessageR(p, b, data)
    ensures a == b
    decreases |data|
  {
    if data != [] {
      MessageInjective(p, ByteR(p, a, data[0]), ByteR(p, b, data[0]), data[1..]);
      var d := Widen(data[0], |a|);
      StepsInjective(p, Xor(a, d), Xor(b, d), 8);
      XorCancel(a, b, d);
    }
  }

  lemma WindowSeparates(p: Word, c: Word, x: seq<Byte>, y: seq<Byte>)
    requires |p| == |c| >= 8 && p[|p| - 1] && |x| == |y| && 8 * |x| <= |c| && x != y
    ensures MessageR(p, c, x) != MessageR(p, c, y)
  {
    if MessageR(p, c, x) == MessageR(p, c, y) {
      ShortMessageInjective(p, c, x, y);
    }
  }

  lemma ShortMessageInjective(p: Word, c: Word, x: seq<Byte>, y: seq<Byte>)
    requires |p| == |c| >= 8 && p[|p| - 1] && |x| == |y| && 8 * |x| <= |c|
    requires MessageR(p, c, x) == MessageR(p, c, y)
    ensures x == y
  {
    ShortMessage(p, c, x);
    ShortMessage(p, c, y);
    var wx, wy := Widen(Concat(x), |c|), Widen(Concat(y), |c|);
    StepsInjective(p, Xor(c, wx), Xor(c, wy), 8 * |x|);
    XorComm(c, wx);
    XorComm(c, wy);
    XorCancel(wx, wy, c);
    assert wx[..8 * |x|] == Concat(x) && wy[..8 * |x|] == Concat(y);
    ConcatInjective(x, y);
  }

  // ----- and only then

  /** The bytes of a word. */
  function SplitBytes(c: Word): (data: seq<Byte>)
    requires |c| % 8 == 0
    ensures 8 * |data| == |c| && Concat(data) == c
  {
    if c == [] then [] else
      var rest := SplitBytes(c[8..]);
      assert ([c[..8]] + rest)[1..] == rest;
      [c[..8]] + rest
  }

  /** Without the top bit two words fall together after one step. */
  lemma StepCollision(p: Word) returns (a: Word, b: Word)
    requires |p| >= 1 && !p[|p| - 1]
    ensures |a| == |b| == |p| && a != b && StepR(p, a) == StepR(p, b)
  {
    var w := |p|;
    a := [true] + Zero(w - 1);
    b := [false] + p[..w - 1];
    assert a[0] != b[0];
    forall i | 0 <= i < w ensures StepR(p, a)[i] == StepR(p, b)[i] {
    }
  }

  /** So a polynomial without the top bit misses some change inside a window of the word's length. */
  lemma WindowMissed(p: Word, c: Word) returns (x: seq<Byte>, y: seq<Byte>)
    requires |p| == |c| >= 8 && |c| % 8 == 0 && !p[|p| - 1]
    ensures |x| == |y| && 8 * |x| == |c| && x != y && MessageR(p, c, x) == MessageR(p, c, y)
  {
    var a, b := StepCollision(p);
    x, y := SplitBytes(Xor(c, a)), SplitBytes(Xor(c, b));
    if x == y {
      XorComm(c, a);
      XorComm(c, b);
      XorCancel(a, b, c);
    }
    AbsorbsTo(p, c, x, a);
    AbsorbsTo(p, c, y, b);
    StepsCollide(p, a, b, |c|);
  }

  /** A message chosen so that the absorbed word is a given one. */
  lemma AbsorbsTo(p: Word, c: Word, x: seq<Byte>, a: Word)
    requires |p| == |c| == |a| >= 8 && 8 * |x| == |c| && Concat(x) == Xor(c, a)
    ensures MessageR(p, c, x) == StepsR(p, a, |c|)
  {
    ShortMessage(p, c, x);
    assert Widen(Concat(x), |c|) == Xor(c, a);
    assert Xor(c, Xor(c, a)) == a;
  }

  lemma StepsCollide(p: Word, a: Word, b: Word, n: nat)
    requires |p| == |a| == |b| >= 1 && n >= 1 && StepR(p, a) == StepR(p, b)
    ensures StepsR(p, a, n) == StepsR(p, b, n)
  {
  }
}
