/** Burst errors: every change confined to at most as many consecutive bits as the register has, at any bit offset
    and across byte boundaries, changes the checksum, exactly when the polynomial is reversible. */
module CrcBursts {
  import opened Bits
  import opened CrcAlgebra
  import opened Crc
  import opened CrcDetection

  // ----- one bit at a time

  /** A bit enters at the low end, and one step follows. */
  function BitsR(p: Word, c: Word, bits: Word): (r: Word)
    requires |p| == |c| >= 1
    ensures |r| == |c|
    decreases |bits|, |c|
  {
    if bits == [] then c else BitsR(p, StepR(p, Xor(c, Widen(bits[..1], |c|))), bits[1..])
  }

  lemma {:induction false} BitsConcat(p: Word, c: Word, u: Word, v: Word)
    requires |p| == |c| >= 1
    ensures BitsR(p, c, u + v) == BitsR(p, BitsR(p, c, u), v)
    decreases |u|
  {
    if u == [] {
      assert u + v == v;
    } else {
      assert (u + v)[..1] == u[..1] && (u + v)[1..] == u[1..] + v;
      BitsConcat(p, StepR(p, Xor(c, Widen(u[..1], |c|))), u[1..], v);
    }
  }

  /** A step over a word that was entered at once leaves the bits behind the first one where they are. */
  lemma StepOverRest(p: Word, c: Word, first: Word, rest: Word)
    requires |p| == |c| >= 1 && |first| == 1 && 1 + |rest| <= |c|
    ensures StepR(p, Xor(c, Widen(first + rest, |c|))) == Xor(StepR(p, Xor(c, Widen(first, |c|))), Widen(rest, |c|))
  {
    var w := |c|;
    var low, high := Xor(c, Widen(first, w)), ShiftLeft(Widen(rest, w), 1);
    assert Widen(first + rest, w) == Xor(Widen(first, w), high);
    XorAssoc(c, Widen(first, w), high);
    StepLinear(p, low, high);
    assert ShiftRight(high, 1) == Widen(rest, w);
  }

  /** Bits that fit the register may enter all at once. */
  lemma {:induction false} BitsAtOnce(p: Word, c: Word, bits: Word)
    requires |p| == |c| >= 1 && |bits| <= |c|
    ensures BitsR(p, c, bits) == StepsR(p, Xor(c, Widen(bits, |c|)), |bits|)
    decreases |bits|
  {
    if bits == [] {
      assert Widen(bits, |c|) == Zero(|c|);
      XorZero(c);
    } else {
      var first, rest := bits[..1], bits[1..];
      assert bits == first + rest;
      StepOverRest(p, c, first, rest);
      BitsAtOnce(p, StepR(p, Xor(c, Widen(first, |c|))), rest);
    }
  }

  /** So a message is the stream of its bits. */
  lemma {:induction false} MessageIsBits(p: Word, c: Word, data: seq<Byte>)
    requires |p| == |c| >= 8
    ensures MessageR(p, c, data) == BitsR(p, c, Concat(data))
    decreases |data|
  {
    if data != [] {
      BitsAtOnce(p, c, data[0]);
      BitsConcat(p, c, data[0], Concat(data[1..]));
      MessageIsBits(p, ByteR(p, c, data[0]), data[1..]);
    }
  }

  // ----- bursts

  /** u and v agree outside the n bits from k on. */
  predicate DifferWithin(u: Word, v: Word, k: nat, n: nat) {
    |u| == |v| && forall i :: 0 <= i < |u| && (i < k || k + n <= i) ==> u[i] == v[i]
  }

  lemma {:induction false} BitsInjective(p: Word, a: Word, b: Word, bits: Word)
    requires |p| == |a| == |b| >= 1 && p[|p| - 1] && BitsR(p, a, bits) == BitsR(p, b, bits)
    ensures a == b
    decreases |bits|
  {
    if bits != [] {
      var d := Widen(bits[..1], |a|);
      BitsInjective(p, StepR(p, Xor(a, d)), StepR(p, Xor(b, d)), bits[1..]);
      StepInjective(p, Xor(a, d), Xor(b, d));
      XorCancel(a, b, d);
    }
  }

  lemma ShortBurst(p: Word, c: Word, u: Word, v: Word)
    requires |p| == |c| >= 1 && p[|p| - 1] && |u| == |v| <= |c| && BitsR(p, c, u) == BitsR(p, c, v)
    ensures u == v
  {
    var wu, wv := Widen(u, |c|), Widen(v, |c|);
    BitsAtOnce(p, c, u);
    BitsAtOnce(p, c, v);
    StepsInjective(p, Xor(c, wu), Xor(c, wv), |u|);
    XorComm(c, wu);
    XorComm(c, wv);
    XorCancel(wu, wv, c);
    assert wu[..|u|] == u && wv[..|u|] == v;
  }

  lemma ThreeParts(p: Word, c: Word, u: Word, v: Word, w: Word, all: Word) returns (c0: Word, c1: Word, c2: Word)
    requires |p| == |c| >= 1 && all == u + v + w
    ensures |c0| == |c1| == |c2| == |c| && c0 == BitsR(p, c, u) && c1 == BitsR(p, c0, v) && c2 == BitsR(p, c1, w)
    ensures BitsR(p, c, all) == c2
  {
    c0 := BitsR(p, c, u);
    c1 := BitsR(p, c0, v);
    c2 := BitsR(p, c1, w);
    BitsConcat(p, c, u + v, w);
    BitsConcat(p, c, u, v);
  }

  /** Different parts of at most the register's length, between equal ones. */
  lemma PartsSeparate(p: Word, c: Word, before: Word, u: Word, v: Word, after: Word, allU: Word, allV: Word)
    requires |p| == |c| >= 1 && p[|p| - 1] && |u| == |v| <= |c| && u != v
    requires allU == before + u + after && allV == before + v + after
    ensures BitsR(p, c, allU) != BitsR(p, c, allV)
  {
    var c0, cu, eu := ThreeParts(p, c, before, u, after, allU);
    var d0, cv, ev := ThreeParts(p, c, before, v, after, allV);
    StaySeparate(p, c0, cu, cv, u, v, after);
  }

  lemma StaySeparate(p: Word, c0: Word, cu: Word, cv: Word, u: Word, v: Word, after: Word)
    requires |p| == |c0| >= 1 && p[|p| - 1] && |u| == |v| <= |c0| && u != v
    requires cu == BitsR(p, c0, u) && cv == BitsR(p, c0, v)
    ensures BitsR(p, cu, after) != BitsR(p, cv, after)
  {
    if BitsR(p, cu, after) == BitsR(p, cv, after) {
      BitsInjective(p, cu, cv, after);
      ShortBurst(p, c0, u, v);
    }
  }

  /** Where a burst begins and ends within the stream. */
  lemma BurstParts(u: Word, v: Word, k: nat, n: nat) returns (before: Word, bu: Word, bv: Word, after: Word)
    requires DifferWithin(u, v, k, n) && u != v
    ensures u == before + bu + after && v == before + bv + after && |bu| == |bv| <= n && bu != bv
  {
    var start := if k < |u| then k else |u|;
    var end := if k + n < |u| then k + n else |u|;
    before, bu, bv, after := u[..start], u[start..end], v[start..end], u[end..];
    assert v[..start] == before && v[end..] == after;
  }

  lemma BurstSeparates(p: Word, c: Word, u: Word, v: Word, k: nat, n: nat)
    requires |p| == |c| >= 1 && p[|p| - 1] && n <= |c| && DifferWithin(u, v, k, n) && u != v
    ensures BitsR(p, c, u) != BitsR(p, c, v)
  {
    var before, bu, bv, after := BurstParts(u, v, k, n);
    PartsSeparate(p, c, before, bu, bv, after, u, v);
  }

  // ----- messages

  /** The bits of a message in the order in which they enter the register: low bit of each byte first when the input
      is reflected, high bit first otherwise. */
  function Stream(m: Model, data: seq<Byte>): (bits: Word) {
    Concat(MirrorBytes(m, data))
  }

  lemma UpdateIsBits(m: Model, c: Word, data: seq<Byte>)
    requires m.Valid() && |c| == m.bits
    ensures Mirror(m, Update(m, c, data)) == BitsR(Mirror(m, m.polynomial), Mirror(m, c), Stream(m, data))
  {
    MirrorUpdate(m, c, data);
    MessageIsBits(Mirror(m, m.polynomial), Mirror(m, c), MirrorBytes(m, data));
  }

  lemma StreamInjective(m: Model, x: seq<Byte>, y: seq<Byte>)
    requires |x| == |y| && Stream(m, x) == Stream(m, y)
    ensures x == y
  {
    ConcatInjective(MirrorBytes(m, x), MirrorBytes(m, y));
    MirrorBytesInjective(m, x, y);
  }

  /** x and y differ, but only in the n bits from number k on, no more than the register has. */
  predicate IsBurst(m: Model, x: seq<Byte>, y: seq<Byte>, k: nat, n: nat) {
    |x| == |y| && n <= m.bits && DifferWithin(Stream(m, x), Stream(m, y), k, n) && x != y
  }

  lemma RegistersSeparate(m: Model, x: seq<Byte>, y: seq<Byte>, k: nat, n: nat)
    requires m.Valid() && Reversible(m) && IsBurst(m, x, y, k, n)
    ensures Update(m, m.init, x) != Update(m, m.init, y)
  {
    ReversibleMirror(m);
    if Stream(m, x) == Stream(m, y) {
      StreamInjective(m, x, y);
    }
    BurstSeparates(Mirror(m, m.polynomial), Mirror(m, m.init), Stream(m, x), Stream(m, y), k, n);
    UpdateIsBits(m, m.init, x);
    UpdateIsBits(m, m.init, y);
  }

  lemma ChecksumDetectsBurst(m: Model, x: seq<Byte>, y: seq<Byte>, k: nat, n: nat)
    requires m.Valid() && Reversible(m) && IsBurst(m, x, y, k, n)
    ensures Checksum(m, x) != Checksum(m, y)
  {
    RegistersSeparate(m, x, y, k, n);
    if Checksum(m, x) == Checksum(m, y) {
      FinalizedInjective(m, Update(m, m.init, x), Update(m, m.init, y));
    }
  }

  ghost predicate DetectsBursts(m: Model)
    requires m.Valid()
  {
    forall x: seq<Byte>, y: seq<Byte>, k: nat, n: nat :: IsBurst(m, x, y, k, n) ==> Checksum(m, x) != Checksum(m, y)
  }

  lemma MissedBurst(m: Model) returns (x: seq<Byte>, y: seq<Byte>)
    requires m.Valid() && !Reversible(m)
    ensures IsBurst(m, x, y, 0, m.bits) && Checksum(m, x) == Checksum(m, y)
  {
    x, y := ChecksumMisses(m);
  }

  /** The exact condition on the polynomial. */
  lemma BurstDetectionExactly(m: Model)
    requires m.Valid()
    ensures DetectsBursts(m) <==> Reversible(m)
  {
    if Reversible(m) {
      forall x: seq<Byte>, y: seq<Byte>, k: nat, n: nat | IsBurst(m, x, y, k, n)
        ensures Checksum(m, x) != Checksum(m, y)
      {
        ChecksumDetectsBurst(m, x, y, k, n);
      }
    } else {
      var x, y := MissedBurst(m);
    }
  }
}
