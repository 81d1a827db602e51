/** What the finalized checksum is for: a message with its checksum appended leaves a register that depends on the
    model alone, and with a reversible polynomial no other ending of that length does. */
module CrcResidue {
  import opened Bits
  import opened CrcAlgebra
  import opened Crc
  import opened CrcDetection
  import opened CrcBursts

  // ----- the order of the output

  /** Bit by bit: the register, read from its other end if input and output differ in order, and then masked. */
  lemma FinalizedBits(m: Model, c: Word, i: nat)
    requires m.Valid() && |c| == m.bits && i < m.bits
    ensures Finalized(m, c)[i] == ((if m.refin == m.refout then c[i] else c[m.bits - 1 - i]) != m.xorout[i])
  {
  }

  /** Two models that differ in the order of the output alone give each other's bits in opposite order, masks apart. */
  lemma OppositeOrders(m: Model, m': Model, data: seq<Byte>)
    requires m.Valid() && m' == m.(refout := !m.refout)
    ensures m'.Valid() && Xor(Checksum(m, data), m.xorout) == Reverse(Xor(Checksum(m', data), m.xorout))
  {
    SameUpdate(m, m', m.init, data);
    var c := Update(m, m.init, data);
    Unmasked(m, c);
    Unmasked(m', c);
    ReverseTwice(c);
  }

  lemma Unmasked(m: Model, c: Word)
    requires m.Valid() && |c| == m.bits
    ensures Xor(Finalized(m, c), m.xorout) == if m.refin == m.refout then c else Reverse(c)
  {
    var l, r := Xor(Finalized(m, c), m.xorout), if m.refin == m.refout then c else Reverse(c);
    forall i | 0 <= i < m.bits
      ensures l[i] == r[i]
    {
      FinalizedBits(m, c, i);
    }
  }

  lemma SameUpdate(m: Model, m': Model, c: Word, data: seq<Byte>)
    requires m.Valid() && m' == m.(refout := !m.refout) && |c| == m.bits
    ensures Update(m', c, data) == Update(m, c, data)
  {
    MirrorUpdate(m, c, data);
    MirrorUpdate(m', c, data);
    assert MirrorBytes(m', data) == MirrorBytes(m, data);
    MirrorInjective(m, Update(m', c, data), Update(m, c, data));
  }

  // ----- appending a word

  /** The byte of a word that enters the register after the given number of bits. */
  function ByteAt(m: Model, w: Word, from: nat): (b: Byte)
    requires from + 8 <= |w|
  {
    if m.refin then w[from..from + 8] else w[|w| - (from + 8)..|w| - from]
  }

  /** The bytes of a word in the order in which the register takes them: low byte first when the input is reflected,
      high byte first otherwise. */
  function BytesOf(m: Model, w: Word): (bytes: seq<Byte>)
    requires m.Valid() && |w| == m.bits
    ensures |bytes| == m.bits / 8
  {
    seq(m.bits / 8, i requires 0 <= i < m.bits / 8 => ByteAt(m, w, 8 * i))
  }

  lemma {:induction false} ConcatChunks(bytes: seq<Byte>, w: Word)
    requires |w| == 8 * |bytes| && forall i :: 0 <= i < |bytes| ==> bytes[i] == w[8 * i..8 * i + 8]
    ensures Concat(bytes) == w
  {
    if bytes != [] {
      var rest := w[8..];
      forall i | 0 <= i < |bytes| - 1
        ensures bytes[1..][i] == rest[8 * i..8 * i + 8]
      {
        assert bytes[1..][i] == bytes[i + 1] == w[8 * (i + 1)..8 * (i + 1) + 8];
      }
      ConcatChunks(bytes[1..], rest);
      assert w == w[0..8] + rest;
    }
  }

  /** So they enter as the bits of the register itself, in its order. */
  lemma StreamOfBytes(m: Model, w: Word)
    requires m.Valid() && |w| == m.bits
    ensures Stream(m, BytesOf(m, w)) == Mirror(m, w)
  {
    forall i | 0 <= i < m.bits / 8
      ensures MirrorBytes(m, BytesOf(m, w))[i] == Mirror(m, w)[8 * i..8 * i + 8]
    {
      MirrorByteAt(m, w, 8 * i);
    }
    ConcatChunks(MirrorBytes(m, BytesOf(m, w)), Mirror(m, w));
  }

  lemma MirrorByteAt(m: Model, w: Word, from: nat)
    requires from + 8 <= |w|
    ensures MirrorByte(m, ByteAt(m, w, from)) == Mirror(m, w)[from..from + 8]
  {
    if !m.refin {
      ReverseSlice(w, from, from + 8);
    }
  }

  lemma ReverseSlice(w: Word, from: nat, to: nat)
    requires from <= to <= |w|
    ensures Reverse(w[|w| - to..|w| - from]) == Reverse(w)[from..to]
  {
  }

  /** Entering a word of the register's width at once: what counts is how it differs from the register. */
  lemma AppendWord(m: Model, c: Word, w: Word)
    requires m.Valid() && |c| == |w| == m.bits
    ensures Update(m, c, BytesOf(m, w)) == Steps(m, Xor(c, w), m.bits)
  {
    var p, c', w' := Mirror(m, m.polynomial), Mirror(m, c), Mirror(m, w);
    UpdateIsBits(m, c, BytesOf(m, w));
    StreamOfBytes(m, w);
    BitsAtOnce(p, c', w');
    assert Widen(w', |c'|) == w';
    MirrorXor(m, c, w);
    MirrorSteps(m, Xor(c, w), m.bits);
    MirrorInjective(m, Update(m, c, BytesOf(m, w)), Steps(m, Xor(c, w), m.bits));
  }

  // ----- the residue

  /** The register that a message with its checksum leaves. */
  ghost function Residue(m: Model): (r: Word)
    requires m.Valid()
  {
    Steps(m, if m.refin == m.refout then m.xorout else Reverse(m.xorout), m.bits)
  }

  /** The checksum in the order of the input. */
  function InInputOrder(m: Model, checksum: Word): Word {
    if m.refin == m.refout then checksum else Reverse(checksum)
  }

  lemma MaskRemains(m: Model, c: Word)
    requires m.Valid() && |c| == m.bits
    ensures Xor(c, InInputOrder(m, Finalized(m, c))) == InInputOrder(m, m.xorout)
  {
    var l, r := Xor(c, InInputOrder(m, Finalized(m, c))), InInputOrder(m, m.xorout);
    forall i | 0 <= i < m.bits
      ensures l[i] == r[i]
    {
      FinalizedBits(m, c, if m.refin == m.refout then i else m.bits - 1 - i);
    }
  }

  /** A message with its checksum appended, in the order in which the register takes bytes, leaves the residue of the
      model, whatever the message. */
  lemma ChecksumLeavesResidue(m: Model, data: seq<Byte>)
    requires m.Valid()
    ensures Update(m, m.init, data + BytesOf(m, InInputOrder(m, Checksum(m, data)))) == Residue(m)
  {
    var c := Update(m, m.init, data);
    var w := InInputOrder(m, Checksum(m, data));
    UpdateConcat(m, m.init, data, BytesOf(m, w));
    AppendWord(m, c, w);
    MaskRemains(m, c);
  }

  /** With a reversible polynomial, no other word does. */
  lemma ResidueExactly(m: Model, data: seq<Byte>, w: Word)
    requires m.Valid() && Reversible(m) && |w| == m.bits
    ensures Update(m, m.init, data + BytesOf(m, w)) == Residue(m) <==> w == InInputOrder(m, Checksum(m, data))
  {
    ChecksumLeavesResidue(m, data);
    var v := InInputOrder(m, Checksum(m, data));
    if Update(m, m.init, data + BytesOf(m, w)) == Residue(m) {
      var c := Update(m, m.init, data);
      UpdateConcat(m, m.init, data, BytesOf(m, w));
      UpdateConcat(m, m.init, data, BytesOf(m, v));
      AppendWord(m, c, w);
      AppendWord(m, c, v);
      StepsSeparate(m, Xor(c, w), Xor(c, v), m.bits);
      XorComm(c, w);
      XorComm(c, v);
      XorCancel(w, v, c);
    }
  }

  lemma StepsSeparate(m: Model, a: Word, b: Word, n: nat)
    requires m.Valid() && Reversible(m) && |a| == |b| == m.bits && Steps(m, a, n) == Steps(m, b, n)
    ensures a == b
  {
    ReversibleMirror(m);
    MirrorSteps(m, a, n);
    MirrorSteps(m, b, n);
    StepsInjective(Mirror(m, m.polynomial), Mirror(m, a), Mirror(m, b), n);
    MirrorInjective(m, a, b);
  }
}
