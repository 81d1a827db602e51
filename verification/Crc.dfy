/** The CRC engines: bit at a time, one table, and slicing by eight tables.  The bit-at-a-time engine
    is the specification of the other two. */
module Crc {
  import opened Bits
  import opened CrcAlgebra

  /** CRCModel: the parameters of one CRC. */
  datatype Model = Model(bits: nat, polynomial: Word, init: Word, refin: bool, refout: bool, xorout: Word) {
    predicate Valid() {
      (bits == 8 || bits == 16 || bits == 32 || bits == 64) && |polynomial| == |init| == |xorout| == bits
    }
  }

  type Table = seq<Word>

  // ----- the bit-at-a-time engine as functions

  function StepL(p: Word, c: Word): (r: Word)
    requires |p| == |c| >= 1
    ensures |r| == |c|
  {
    if c[|c| - 1] then Xor(ShiftLeft(c, 1), p) else ShiftLeft(c, 1)
  }

  function Step(m: Model, c: Word): (r: Word)
    requires m.Valid() && |c| == m.bits
    ensures |r| == |c|
  {
    if m.refin then StepR(m.polynomial, c) else StepL(m.polynomial, c)
  }

  ghost function Steps(m: Model, c: Word, n: nat): (r: Word)
    requires m.Valid() && |c| == m.bits
    ensures |r| == |c|
    decreases n, |c|
  {
    if n == 0 then c else Step(m, Steps(m, c, n - 1))
  }

  /** Where a message byte enters the register. */
  function Place(m: Model, b: Byte): (r: Word)
    requires m.Valid()
    ensures |r| == m.bits
  {
    if m.refin then Widen(b, m.bits) else ShiftLeft(Widen(b, m.bits), m.bits - 8)
  }

  ghost function ByteUpdate(m: Model, c: Word, b: Byte): (r: Word)
    requires m.Valid() && |c| == m.bits
    ensures |r| == |c|
  {
    Steps(m, Xor(c, Place(m, b)), 8)
  }

  ghost function Update(m: Model, c: Word, data: seq<Byte>): (r: Word)
    requires m.Valid() && |c| == m.bits
    ensures |r| == |c|
    decreases |data|, c
  {
    if data == [] then c else ByteUpdate(m, Update(m, c, data[..|data| - 1]), data[|data| - 1])
  }

  // ----- reduction of both bit orders to the reflected one

  /** A register of an unreflected model, read from its other end. */
  function Mirror(m: Model, c: Word): (r: Word)
    ensures |r| == |c|
  {
    if m.refin then c else Reverse(c)
  }

  function MirrorByte(m: Model, b: Byte): Byte {
    if m.refin then b else Reverse(b)
  }

  function MirrorBytes(m: Model, data: seq<Byte>): (r: seq<Byte>)
    ensures |r| == |data| && forall i :: 0 <= i < |data| ==> r[i] == MirrorByte(m, data[i])
  {
    seq(|data|, i requires 0 <= i < |data| => MirrorByte(m, data[i]))
  }

  lemma MirrorInjective(m: Model, a: Word, b: Word)
    requires |a| == |b| && Mirror(m, a) == Mirror(m, b)
    ensures a == b
  {
    ReverseTwice(a);
    ReverseTwice(b);
  }

  lemma MirrorXor(m: Model, a: Word, b: Word)
    requires |a| == |b|
    ensures Mirror(m, Xor(a, b)) == Xor(Mirror(m, a), Mirror(m, b))
  {
    ReverseXor(a, b);
  }

  lemma ReverseShiftLeft(a: Word, n: nat)
    requires n <= |a|
    ensures Reverse(ShiftLeft(a, n)) == ShiftRight(Reverse(a), n)
  {
    forall i | 0 <= i < |a| ensures Reverse(ShiftLeft(a, n))[i] == ShiftRight(Reverse(a), n)[i] {
    }
  }

  lemma MirrorStep(m: Model, c: Word)
    requires m.Valid() && |c| == m.bits
    ensures Mirror(m, Step(m, c)) == StepR(Mirror(m, m.polynomial), Mirror(m, c))
  {
    if !m.refin {
      ReverseShiftLeft(c, 1);
      ReverseXor(ShiftLeft(c, 1), m.polynomial);
    }
  }

  lemma MirrorSteps(m: Model, c: Word, n: nat)
    requires m.Valid() && |c| == m.bits
    ensures Mirror(m, Steps(m, c, n)) == StepsR(Mirror(m, m.polynomial), Mirror(m, c), n)
  {
    MirrorStepsOf(m, c, n, Mirror(m, m.polynomial), Mirror(m, c));
  }

  lemma {:induction false} MirrorStepsOf(m: Model, c: Word, n: nat, p': Word, c': Word)
    requires m.Valid() && |c| == m.bits && p' == Mirror(m, m.polynomial) && c' == Mirror(m, c)
    ensures Mirror(m, Steps(m, c, n)) == StepsR(p', c', n)
    decreases n
  {
    if n != 0 {
      MirrorStepsOf(m, c, n - 1, p', c');
      MirrorNext(m, Steps(m, c, n - 1), p', c', n - 1, n);
    }
  }

  lemma MirrorNext(m: Model, d: Word, p': Word, c': Word, n: nat, n': nat)
    requires m.Valid() && |d| == |c'| == m.bits && p' == Mirror(m, m.polynomial)
    requires Mirror(m, d) == StepsR(p', c', n) && n' == n + 1
    ensures Mirror(m, Step(m, d)) == StepsR(p', c', n')
  {
    MirrorStep(m, d);
    LastStep(p', c', n, n', Mirror(m, d), Mirror(m, Step(m, d)));
  }

  lemma LastStep(p: Word, c: Word, n: nat, n': nat, d: Word, e: Word)
    requires |p| == |c| >= 1 && n' == n + 1 && d == StepsR(p, c, n) && e == StepR(p, d)
    ensures StepsR(p, c, n') == e
  {
    StepsAdd(p, c, n, 1);
    assert StepsR(p, d, 1) == StepsR(p, StepR(p, d), 0);
  }

  lemma MirrorPlace(m: Model, b: Byte)
    requires m.Valid()
    ensures Mirror(m, Place(m, b)) == Widen(MirrorByte(m, b), m.bits)
  {
    if !m.refin {
      var w := m.bits;
      forall i | 0 <= i < w ensures Reverse(ShiftLeft(Widen(b, w), w - 8))[i] == Widen(Reverse(b), w)[i] {
      }
    }
  }

  lemma MirrorUpdateByte(m: Model, c: Word, b: Byte)
    requires m.Valid() && |c| == m.bits
    ensures Mirror(m, ByteUpdate(m, c, b)) == ByteR(Mirror(m, m.polynomial), Mirror(m, c), MirrorByte(m, b))
  {
    MirrorSteps(m, Xor(c, Place(m, b)), 8);
    MirrorXor(m, c, Place(m, b));
    MirrorPlace(m, b);
  }

  lemma {:induction false} MirrorUpdate(m: Model, c: Word, data: seq<Byte>)
    requires m.Valid() && |c| == m.bits
    ensures Mirror(m, Update(m, c, data)) == MessageR(Mirror(m, m.polynomial), Mirror(m, c), MirrorBytes(m, data))
    decreases |data|
  {
    if data != [] {
      var front, last := data[..|data| - 1], data[|data| - 1];
      MirrorUpdate(m, c, front);
      MirrorUpdateByte(m, Update(m, c, front), last);
      MirrorBytesLast(m, data);
      MessageLast(Mirror(m, m.polynomial), Mirror(m, c), MirrorBytes(m, front), MirrorByte(m, last),
          MirrorBytes(m, data),
                  Mirror(m, Update(m, c, front)));
    }
  }

  lemma MirrorBytesLast(m: Model, data: seq<Byte>)
    requires data != []
    ensures MirrorBytes(m, data) == MirrorBytes(m, data[..|data| - 1]) + [MirrorByte(m, data[|data| - 1])]
  {
  }

  lemma MessageLast(p: Word, c: Word, front: seq<Byte>, last: Byte, data: seq<Byte>, d: Word)
    requires |p| == |c| >= 8 && data == front + [last] && d == MessageR(p, c, front)
    ensures MessageR(p, c, data) == ByteR(p, d, last)
  {
    MessageConcat(p, c, front, [last]);
    MessageCons(p, d, [last], ByteR(p, d, last));
    assert [last][1..] == [];
  }

  // ----- the bit-at-a-time engine

  /** BitwiseByteUpdateHelper::Update. */
  method BitwiseByte(m: Model, crc: Word, b: Byte) returns (r: Word)
    requires m.Valid() && |crc| == m.bits
    ensures |r| == m.bits && r == ByteUpdate(m, crc, b)
  {
    r := EightSteps(m, Xor(crc, Place(m, b)));
  }

  /** The bit loop that BitwiseByteUpdateHelper and MakeTable0 share. */
  method EightSteps(m: Model, start: Word) returns (r: Word)
    requires m.Valid() && |start| == m.bits
    ensures |r| == m.bits && r == Steps(m, start, 8)
  {
    r := start;
    var bit := 0;
    while bit < 8
      invariant 0 <= bit <= 8 && |r| == m.bits && r == Steps(m, start, bit)
    {
      r := Step(m, r);
      bit := bit + 1;
    }
  }

  method BitwiseUpdate(m: Model, crc: Word, data: seq<Byte>) returns (r: Word)
    requires m.Valid() && |crc| == m.bits
    ensures |r| == m.bits && r == Update(m, crc, data)
  {
    r := crc;
    var i := 0;
    while i < |data|
      invariant i <= |data| && |r| == m.bits && r == Update(m, crc, data[..i])
    {
      UpdateNext(m, crc, data, i);
      r := BitwiseByte(m, r, data[i]);
      i := i + 1;
    }
    assert data[..|data|] == data;
  }

  lemma UpdateNext(m: Model, c: Word, data: seq<Byte>, i: nat)
    requires m.Valid() && |c| == m.bits && i < |data|
    ensures Update(m, c, data[..i + 1]) == ByteUpdate(m, Update(m, c, data[..i]), data[i])
  {
    assert data[..i + 1][..i] == data[..i];
  }

  // ----- one table

  /** Entry n is what the given number of steps makes of byte n. */
  ghost predicate Filled(m: Model, t: Table, steps: nat)
    requires m.Valid()
  {
    forall n :: 0 <= n < |t| ==> EntryOk(m, t[n], n, steps)
  }

  ghost predicate EntryOk(m: Model, e: Word, n: nat, steps: nat)
    requires m.Valid()
  {
    |e| == m.bits && e == Steps(m, Place(m, FromNat(n, 8)), steps)
  }

  ghost predicate IsTable(m: Model, t: Table, steps: nat)
    requires m.Valid()
  {
    |t| == 256 && Filled(m, t, steps)
  }

  lemma FillNext(m: Model, t: Table, steps: nat, e: Word)
    requires m.Valid() && Filled(m, t, steps) && EntryOk(m, e, |t|, steps)
    ensures Filled(m, t + [e], steps)
  {
    var t' := t + [e];
    forall n | 0 <= n < |t'| ensures EntryOk(m, t'[n], n, steps) {
      if n < |t| {
        assert t'[n] == t[n];
        assert EntryOk(m, t[n], n, steps);
      }
    }
  }

  /** MakeTable0: entry n is what eight steps make of byte n. */
  method MakeTable0(m: Model) returns (t: Table)
    requires m.Valid()
    ensures IsTable(m, t, 8)
  {
    t := [];
    var n := 0;
    while n < 256
      invariant 0 <= n <= 256 && |t| == n
      invariant Filled(m, t, 8)
    {
      var crc := EightSteps(m, Place(m, FromNat(n, 8)));
      FillNext(m, t, 8, crc);
      t := t + [crc];
      n := n + 1;
    }
  }

  function HighByte(c: Word): Byte
    requires |c| >= 8
  {
    c[|c| - 8..]
  }

  predicate Shaped(t: Table, width: nat) {
    |t| == 256 && forall n :: 0 <= n < 256 ==> |t[n]| == width
  }

  /** A byte as an array index. */
  function Index(b: Byte): (n: nat)
    ensures n < 256
  {
    ToNatBound(b);
    assert Pow2(8) == 256;
    ToNat(b)
  }

  /** Table lookup by a byte. */
  function Entry(t: Table, b: Byte, width: nat): (r: Word)
    requires Shaped(t, width)
    ensures |r| == width
  {
    t[Index(b)]
  }

  /** TableByteUpdateHelper::Update. */
  function TableByte(m: Model, t: Table, crc: Word, b: Byte): (r: Word)
    requires m.Valid() && |crc| == m.bits && Shaped(t, m.bits)
    ensures |r| == m.bits
  {
    if m.refin then Xor(Entry(t, Xor(LowByte(crc), b), m.bits), ShiftRight(crc, 8))
    else Xor(Entry(t, Xor(HighByte(crc), b), m.bits), ShiftLeft(crc, 8))
  }

  lemma EntryIsSteps(m: Model, t: Table, b: Byte, steps: nat)
    requires m.Valid() && IsTable(m, t, steps)
    ensures Mirror(m, Entry(t, b, m.bits)) == StepsR(Mirror(m, m.polynomial), Widen(MirrorByte(m, b), m.bits), steps)
  {
    FromToNat(b);
    assert EntryOk(m, t[Index(b)], Index(b), steps);
    MirrorSteps(m, Place(m, b), steps);
    MirrorPlace(m, b);
  }

  /** The table form of one byte equals eight bitwise steps. */
  lemma TableByteCorrect(m: Model, t: Table, c: Word, b: Byte)
    requires m.Valid() && |c| == m.bits && IsTable(m, t, 8)
    ensures TableByte(m, t, c, b) == ByteUpdate(m, c, b)
  {
    var p, mc, mb := Mirror(m, m.polynomial), Mirror(m, c), MirrorByte(m, b);
    var index: Byte := if m.refin then Xor(LowByte(c), b) else Xor(HighByte(c), b);
    var rest := if m.refin then ShiftRight(c, 8) else ShiftLeft(c, 8);
    EntryIsSteps(m, t, index, 8);
    MirrorIndex(m, c, b);
    MirrorXor(m, Entry(t, index, m.bits), rest);
    ByteByTable(p, mc, mb);
    MirrorUpdateByte(m, c, b);
    MirrorInjective(m, Xor(Entry(t, index, m.bits), rest), ByteUpdate(m, c, b));
  }

  lemma MirrorIndex(m: Model, c: Word, b: Byte)
    requires m.Valid() && |c| == m.bits
    ensures m.refin ==> MirrorByte(m, Xor(LowByte(c), b)) == Xor(LowByte(Mirror(m, c)), MirrorByte(m, b))
    ensures !m.refin ==> MirrorByte(m, Xor(HighByte(c), b)) == Xor(LowByte(Mirror(m, c)), MirrorByte(m, b))
    ensures m.refin ==> Mirror(m, ShiftRight(c, 8)) == ShiftRight(Mirror(m, c), 8)
    ensures !m.refin ==> Mirror(m, ShiftLeft(c, 8)) == ShiftRight(Mirror(m, c), 8)
  {
    if !m.refin {
      ReverseShiftLeft(c, 8);
      ReverseXor(HighByte(c), b);
      assert Reverse(HighByte(c)) == LowByte(Reverse(c));
    }
  }

  /** TableCRCEngine<Model, 1>::Update. */
  method TableUpdate(m: Model, t: Table, crc: Word, data: seq<Byte>) returns (r: Word)
    requires m.Valid() && |crc| == m.bits && IsTable(m, t, 8)
    ensures |r| == m.bits && r == Update(m, crc, data)
  {
    r := crc;
    var i := 0;
    while i < |data|
      invariant i <= |data| && |r| == m.bits && r == Update(m, crc, data[..i])
    {
      UpdateNext(m, crc, data, i);
      TableByteCorrect(m, t, r, data[i]);
      r := TableByte(m, t, r, data[i]);
      i := i + 1;
    }
    assert data[..|data|] == data;
  }

  // ----- slicing by eight

  ghost predicate AreSlices(m: Model, ts: seq<Table>)
    requires m.Valid()
  {
    forall k :: 0 <= k < |ts| ==> IsTable(m, ts[k], 8 * (k + 1))
  }

  /** One more slice: each entry of the previous slice pushed through eight further steps. */
  method NextSlice(m: Model, table0: Table, previous: Table, ghost steps: nat, ghost steps': nat) returns (t: Table)
    requires m.Valid() && m.refin && IsTable(m, table0, 8) && IsTable(m, previous, steps) && steps' == steps + 8
    ensures IsTable(m, t, steps')
  {
    t := [];
    var n := 0;
    while n < 256
      invariant 0 <= n <= 256 && |t| == n
      invariant Filled(m, t, steps')
    {
      assert EntryOk(m, previous[n], n, steps);
      var e := SliceEntry(m, table0, previous[n], Place(m, FromNat(n, 8)), steps, steps');
      FillNext(m, t, steps', e);
      t := t + [e];
      n := n + 1;
    }
  }

  /** One entry of a further slice. */
  method SliceEntry(m: Model, table0: Table, prev: Word, ghost start: Word, ghost steps: nat, ghost steps': nat)
    returns (e: Word)
    requires m.Valid() && m.refin && IsTable(m, table0, 8) && |start| == m.bits
    requires prev == Steps(m, start, steps) && steps' == steps + 8
    ensures |e| == m.bits && e == Steps(m, start, steps')
  {
    e := Xor(Entry(table0, LowByte(prev), m.bits), ShiftRight(prev, 8));
    EntryIsSteps(m, table0, LowByte(prev), 8);
    MirrorSteps(m, start, steps);
    MirrorSteps(m, start, steps');
    EightMore(m.polynomial, start, prev, steps, steps');
  }

  /** Eight more steps, in table form with no message byte. */
  lemma EightMore(p: Word, start: Word, c: Word, n: nat, n': nat)
    requires |p| == |start| >= 8 && c == StepsR(p, start, n) && n' == n + 8
    ensures StepsR(p, start, n') == Xor(StepsR(p, Widen(LowByte(c), |c|), 8), ShiftRight(c, 8))
  {
    StepsAdd(p, start, n, 8);
    ZeroByteByTable(p, c);
  }

  lemma ZeroByteByTable(p: Word, c: Word)
    requires |p| == |c| >= 8
    ensures StepsR(p, c, 8) == Xor(StepsR(p, Widen(LowByte(c), |c|), 8), ShiftRight(c, 8))
  {
    var zero: Byte := Zero(8);
    XorZero(LowByte(c));
    ByteByTable(p, c, zero);
    assert Widen(zero, |c|) == Zero(|c|);
    XorZero(c);
  }

  /** MakeTables for eight slices. */
  method MakeTables(m: Model) returns (ts: seq<Table>)
    requires m.Valid() && m.refin
    ensures |ts| == 8 && AreSlices(m, ts)
  {
    var table0 := MakeTable0(m);
    ts := [table0];
    var slice := 1;
    while slice < 8
      invariant 1 <= slice <= 8 && |ts| == slice && AreSlices(m, ts) && ts[0] == table0
    {
      assert IsTable(m, ts[slice - 1], 8 * ((slice - 1) + 1));
      var t := NextSlice(m, table0, ts[slice - 1], 8 * ((slice - 1) + 1), 8 * (slice + 1));
      ts := ts + [t];
      slice := slice + 1;
    }
  }

  /** LoadLittleEndian32 or 64, as wide as the register. */
  function LoadLittleEndian(block: seq<Byte>, width: nat): (r: Word)
    requires width % 8 == 0 && width / 8 <= |block|
    ensures |r| == width
  {
    Concat(block[..width / 8])
  }

  /** The index into slice 7 - j: a register byte while there are any, then a message byte. */
  function SliceIndex(crc: Word, block: seq<Byte>, j: nat): Byte
    requires |crc| % 8 == 0 && j < |block|
  {
    if 8 * j < |crc| then ByteAt(crc, j) else block[j]
  }

  /** The exclusive or of the eight table entries, from slice 7 - j down. */
  function SliceSum(ts: seq<Table>, crc: Word, block: seq<Byte>, j: nat): (r: Word)
    requires |crc| % 8 == 0 && |block| == |ts| && j <= |block|
    requires forall k :: 0 <= k < |ts| ==> Shaped(ts[k], |crc|)
    ensures |r| == |crc|
    decreases |block| - j
  {
    if j == |block| then Zero(|crc|)
    else
      Xor(Entry(ts[|block| - 1 - j], SliceIndex(crc, block, j), |crc|), SliceSum(ts, crc, block, j + 1))
  }

  /** The index already holds the exclusive or of register byte and message byte. */
  lemma SliceIndexIsXor(crc: Word, block: seq<Byte>, j: nat)
    requires |crc| % 8 == 0 && |crc| / 8 <= |block| && j < |block|
    ensures SliceIndex(Xor(crc, LoadLittleEndian(block, |crc|)), block, j) == Xor(ByteAt(crc, j), block[j])
  {
    if 8 * j < |crc| {
      var head := block[..|crc| / 8];
      ConcatAt(head, j);
      var word := Concat(head);
      forall i | 0 <= i < 8 ensures ByteAt(Xor(crc, word), j)[i] == Xor(ByteAt(crc, j), block[j])[i] {
        assert word[8 * j + i] == block[j][i];
      }
    } else {
      XorZero(block[j]);
    }
  }

  lemma {:induction false} ConcatAt(data: seq<Byte>, j: nat)
    requires j < |data|
    ensures forall i :: 0 <= i < 8 ==> Concat(data)[8 * j + i] == data[j][i]
    decreases |data|
  {
    if j > 0 {
      ConcatAt(data[1..], j - 1);
      forall i | 0 <= i < 8 ensures Concat(data)[8 * j + i] == data[j][i] {
        assert Concat(data)[8 + (8 * (j - 1) + i)] == Concat(data[1..])[8 * (j - 1) + i];
      }
    }
  }

  lemma SliceEntryIsSteps(m: Model, ts: seq<Table>, k: nat, b: Byte, steps: nat)
    requires m.Valid() && m.refin && AreSlices(m, ts) && k < |ts| && steps == 8 * (k + 1)
    ensures Shaped(ts[k], m.bits)
    ensures Entry(ts[k], b, m.bits) == StepsR(m.polynomial, Widen(b, m.bits), steps)
  {
    assert IsTable(m, ts[k], 8 * (k + 1));
    EntryIsSteps(m, ts[k], b, steps);
  }

  lemma SliceSumNext(ts: seq<Table>, crc: Word, block: seq<Byte>, j: nat, e: Word, rest: Word)
    requires |crc| % 8 == 0 && |block| == |ts| && j < |block|
    requires forall k :: 0 <= k < |ts| ==> Shaped(ts[k], |crc|)
    requires e == Entry(ts[|block| - 1 - j], SliceIndex(crc, block, j), |crc|)
    requires rest == SliceSum(ts, crc, block, j + 1)
    ensures SliceSum(ts, crc, block, j) == Xor(e, rest)
  {
  }

  lemma BlockSumNext(p: Word, c: Word, data: seq<Byte>, j: nat, b: Byte, steps: nat, e: Word, rest: Word)
    requires |p| == |c| >= 8 && |c| % 8 == 0 && j < |data|
    requires b == Xor(ByteAt(c, j), data[j]) && steps == 8 * (|data| - j)
    requires e == StepsR(p, Widen(b, |c|), steps) && rest == BlockSum(p, c, data, j + 1)
    ensures BlockSum(p, c, data, j) == Xor(e, rest)
  {
  }

  /** Every slice entry is the contribution of its byte. */
  ghost predicate Contributes(p: Word, ts: seq<Table>, crc: Word, crc': Word, block: seq<Byte>, k: nat)
    requires |p| == |crc| == |crc'| >= 8 && |crc| % 8 == 0 && |ts| == |block| && k < |block|
    requires Shaped(ts[|block| - 1 - k], |crc|)
  {
    Entry(ts[|block| - 1 - k], SliceIndex(crc', block, k), |crc|)
      == StepsR(p, Widen(Xor(ByteAt(crc, k), block[k]), |crc|), 8 * (|block| - k))
  }

  lemma {:induction false} SliceSumIsBlockSum(p: Word, ts: seq<Table>, crc: Word, crc': Word, block: seq<Byte>, j: nat)
    requires |p| == |crc| == |crc'| >= 8 && |crc| % 8 == 0 && |ts| == |block| && j <= |block|
    requires forall k :: 0 <= k < |ts| ==> Shaped(ts[k], |crc|)
    requires forall k :: 0 <= k < |block| ==> Contributes(p, ts, crc, crc', block, k)
    ensures SliceSum(ts, crc', block, j) == BlockSum(p, crc, block, j)
    decreases |block| - j
  {
    if j < |block| {
      SliceSumIsBlockSum(p, ts, crc, crc', block, j + 1);
      SumsNext(p, ts, crc, crc', block, j, SliceSum(ts, crc', block, j + 1));
    }
  }

  lemma SumsNext(p: Word, ts: seq<Table>, crc: Word, crc': Word, block: seq<Byte>, j: nat, rest: Word)
    requires |p| == |crc| == |crc'| >= 8 && |crc| % 8 == 0 && |ts| == |block| && j < |block|
    requires forall k :: 0 <= k < |ts| ==> Shaped(ts[k], |crc|)
    requires Contributes(p, ts, crc, crc', block, j)
    requires rest == SliceSum(ts, crc', block, j + 1) == BlockSum(p, crc, block, j + 1)
    ensures SliceSum(ts, crc', block, j) == BlockSum(p, crc, block, j)
  {
    var e := Entry(ts[|block| - 1 - j], SliceIndex(crc', block, j), |crc|);
    SliceSumNext(ts, crc', block, j, e, rest);
    BlockSumNext(p, crc, block, j, Xor(ByteAt(crc, j), block[j]), 8 * (|block| - j), e, rest);
  }

  lemma SlicesContribute(m: Model, ts: seq<Table>, crc: Word, crc': Word, block: seq<Byte>, k: nat)
    requires m.Valid() && m.refin && |crc| == |crc'| == m.bits && |ts| == |block| && m.bits / 8 <= |block|
    requires AreSlices(m, ts)
    requires k < |block| && crc' == Xor(crc, LoadLittleEndian(block, m.bits))
    ensures Shaped(ts[|block| - 1 - k], m.bits) && Contributes(m.polynomial, ts, crc, crc', block, k)
  {
    SliceIndexIsXor(crc, block, k);
    SliceEntryIsSteps(m, ts, |block| - 1 - k, SliceIndex(crc', block, k), 8 * (|block| - k));
  }

  lemma SlicesShaped(m: Model, ts: seq<Table>)
    requires m.Valid() && AreSlices(m, ts)
    ensures forall k :: 0 <= k < |ts| ==> Shaped(ts[k], m.bits)
  {
    forall k | 0 <= k < |ts| ensures Shaped(ts[k], m.bits) {
      assert IsTable(m, ts[k], 8 * (k + 1));
      forall n | 0 <= n < 256 ensures |ts[k][n]| == m.bits {
        assert EntryOk(m, ts[k][n], n, 8 * (k + 1));
      }
    }
  }

  /** One block of eight bytes in the slicing engines. */
  method SliceBlock(m: Model, ts: seq<Table>, crc: Word, block: seq<Byte>) returns (r: Word)
    requires m.Valid() && m.refin && |crc| == m.bits && |ts| == 8 && AreSlices(m, ts) && |block| == 8
    ensures |r| == m.bits && r == MessageR(m.polynomial, crc, block)
  {
    var crc' := Xor(crc, LoadLittleEndian(block, m.bits));
    SlicesShaped(m, ts);
    r := SliceSum(ts, crc', block, 0);
    SliceBlockCorrect(m, ts, crc, crc', block);
  }

  lemma SliceBlockCorrect(m: Model, ts: seq<Table>, crc: Word, crc': Word, block: seq<Byte>)
    requires m.Valid() && m.refin && |crc| == m.bits && |ts| == 8 && AreSlices(m, ts) && |block| == 8
    requires crc' == Xor(crc, LoadLittleEndian(block, m.bits))
    requires forall k :: 0 <= k < |ts| ==> Shaped(ts[k], m.bits)
    ensures SliceSum(ts, crc', block, 0) == MessageR(m.polynomial, crc, block)
  {
    forall k | 0 <= k < 8 ensures Contributes(m.polynomial, ts, crc, crc', block, k) {
      SlicesContribute(m, ts, crc, crc', block, k);
    }
    SliceSumIsBlockSum(m.polynomial, ts, crc, crc', block, 0);
    BlockIsSum(m.polynomial, crc, block);
  }

  /** ReflectedSlicingUpdateHelper for 32- and 64-bit registers (it would serve 8 and 16 as well). */
  method SlicingUpdate(m: Model, ts: seq<Table>, crc: Word, data: seq<Byte>) returns (r: Word)
    requires m.Valid() && m.refin && |crc| == m.bits && |ts| == 8 && AreSlices(m, ts)
    ensures |r| == m.bits && r == Update(m, crc, data)
  {
    r := crc;
    var i := 0;
    while |data| - i >= 8
      invariant i <= |data| && |r| == m.bits && r == Update(m, crc, data[..i])
    {
      UpdateBlock(m, crc, data, i, i + 8);
      r := SliceBlock(m, ts, r, data[i..i + 8]);
      i := i + 8;
    }
    // the bytes left over go through the first table alone
    assert IsTable(m, ts[0], 8 * (0 + 1));
    UpdateConcat(m, crc, data[..i], data[i..]);
    assert data[..i] + data[i..] == data;
    r := TableUpdate(m, ts[0], r, data[i..]);
  }

  /** A reflected model works in the reflected order directly. */
  lemma UpdateIsMessage(m: Model, c: Word, data: seq<Byte>)
    requires m.Valid() && m.refin && |c| == m.bits
    ensures Update(m, c, data) == MessageR(m.polynomial, c, data)
  {
    MirrorUpdate(m, c, data);
    assert MirrorBytes(m, data) == data;
  }

  lemma UpdateBlock(m: Model, c: Word, data: seq<Byte>, i: nat, j: nat)
    requires m.Valid() && m.refin && |c| == m.bits && i <= j <= |data|
    ensures Update(m, c, data[..j]) == MessageR(m.polynomial, Update(m, c, data[..i]), data[i..j])
  {
    UpdateTwo(m, c, data[..i], data[i..j], data[..j]);
  }

  lemma UpdateTwo(m: Model, c: Word, front: seq<Byte>, block: seq<Byte>, data: seq<Byte>)
    requires m.Valid() && m.refin && |c| == m.bits && data == front + block
    ensures Update(m, c, data) == MessageR(m.polynomial, Update(m, c, front), block)
  {
    UpdateConcat(m, c, front, block);
    UpdateIsMessage(m, Update(m, c, front), block);
  }

  // ----- finalisation and streaming

  /** BitReverse, by shifting bits out of one word and into another. */
  method BitReverse(value: Word) returns (reversed: Word)
    requires |value| >= 1
    ensures reversed == Reverse(value)
  {
    var w := |value|;
    reversed := Zero(w);
    var rest := value;
    var i := 0;
    assert Reverse(value[..0]) + Zero(w) == Zero(w) && value[0..] + Zero(0) == value;
    while i < w
      invariant 0 <= i <= w
      invariant rest == value[i..] + Zero(i)
      invariant reversed == Reverse(value[..i]) + Zero(w - i)
    {
      ReverseBit(value, i);
      reversed := [rest[0]] + reversed[..w - 1];
      rest := ShiftRight(rest, 1);
      i := i + 1;
    }
    assert value[..w] == value && Zero(0) == [];
  }

  lemma ReverseBit(value: Word, i: nat)
    requires i < |value|
    ensures (value[i..] + Zero(i))[0] == value[i]
    ensures ShiftRight(value[i..] + Zero(i), 1) == value[i + 1..] + Zero(i + 1)
    ensures [value[i]] + (Reverse(value[..i]) + Zero(|value| - i))[..|value| - 1]
         == Reverse(value[..i + 1]) + Zero(|value| - i - 1)
  {
    assert Reverse(value[..i + 1]) == [value[i]] + Reverse(value[..i]);
  }

  function Finalized(m: Model, crc: Word): (r: Word)
    requires m.Valid() && |crc| == m.bits
    ensures |r| == m.bits
  {
    Xor(if m.refin != m.refout then Reverse(crc) else crc, m.xorout)
  }

  method Finalize(m: Model, crc: Word) returns (r: Word)
    requires m.Valid() && |crc| == m.bits
    ensures r == Finalized(m, crc)
  {
    var c := crc;
    if m.refin != m.refout {
      c := BitReverse(c);
    }
    r := Xor(c, m.xorout);
  }

  lemma FinalizedInjective(m: Model, a: Word, b: Word)
    requires m.Valid() && |a| == |b| == m.bits && Finalized(m, a) == Finalized(m, b)
    ensures a == b
  {
    var ra, rb := if m.refin != m.refout then Reverse(a) else a, if m.refin != m.refout then Reverse(b) else b;
    XorCancel(ra, rb, m.xorout);
    ReverseTwice(a);
    ReverseTwice(b);
  }

  ghost function Checksum(m: Model, data: seq<Byte>): (r: Word)
    requires m.Valid()
    ensures |r| == m.bits
  {
    Finalized(m, Update(m, m.init, data))
  }

  lemma {:induction false} UpdateConcat(m: Model, c: Word, x: seq<Byte>, y: seq<Byte>)
    requires m.Valid() && |c| == m.bits
    ensures Update(m, c, x + y) == Update(m, Update(m, c, x), y)
    decreases |y|
  {
    if y == [] {
      assert x + y == x;
    } else {
      UpdateConcat(m, c, x, y[..|y| - 1]);
      assert (x + y)[..|x + y| - 1] == x + y[..|y| - 1];
    }
  }

  /** CRCState over the table engine: a message may arrive in any pieces. */
  class CrcState {
    const model: Model
    const table: Table
    var crc: Word
    ghost var consumed: seq<Byte>

    ghost predicate Valid()
      reads this
    {
      model.Valid() && IsTable(model, table, 8) && |crc| == model.bits && crc == Update(model, model.init, consumed)
    }

    constructor (m: Model)
      requires m.Valid()
      ensures Valid() && model == m && consumed == []
    {
      model := m;
      var t := MakeTable0(m);
      table := t;
      crc := m.init;
      consumed := [];
    }

    method Append(data: seq<Byte>)
      requires Valid()
      modifies this
      ensures Valid() && consumed == old(consumed) + data
    {
      UpdateConcat(model, model.init, consumed, data);
      crc := TableUpdate(model, table, crc, data);
      consumed := consumed + data;
    }

    method Result() returns (r: Word)
      requires Valid()
      ensures r == Checksum(model, consumed)
    {
      r := Finalize(model, crc);
    }
  }
}
