/** Which message changes a CRC detects: every change confined to a window of the register's length,
    exactly when the polynomial makes the shift-xor step reversible. */
module CrcDetection {
  import opened Bits
  import opened CrcAlgebra
  import opened Crc

  /** The end bit of the polynomial that a step feeds back into the freed position. */
  predicate Reversible(m: Model)
    requires m.Valid()
  {
    if m.refin then m.polynomial[m.bits - 1] else m.polynomial[0]
  }

  lemma ReversibleMirror(m: Model)
    requires m.Valid()
    ensures var p := Mirror(m, m.polynomial); |p| == m.bits && (p[m.bits - 1] <==> Reversible(m))
  {
  }

  lemma MirrorBytesInjective(m: Model, x: seq<Byte>, y: seq<Byte>)
    requires |x| == |y| && MirrorBytes(m, x) == MirrorBytes(m, y)
    ensures x == y
  {
    forall i | 0 <= i < |x| ensures x[i] == y[i] {
      assert MirrorBytes(m, x)[i] == MirrorBytes(m, y)[i];
      ReverseTwice(x[i]);
      ReverseTwice(y[i]);
    }
  }

  /** Different windows of at most the register's length lead to different registers. */
  lemma UpdateSeparates(m: Model, c: Word, x: seq<Byte>, y: seq<Byte>)
    requires m.Valid() && |c| == m.bits && Reversible(m) && |x| == |y| && 8 * |x| <= m.bits && x != y
    ensures Update(m, c, x) != Update(m, c, y)
  {
    ReversibleMirror(m);
    if MirrorBytes(m, x) == MirrorBytes(m, y) {
      MirrorBytesInjective(m, x, y);
    }
    WindowSeparates(Mirror(m, m.polynomial), Mirror(m, c), MirrorBytes(m, x), MirrorBytes(m, y));
    MirrorUpdate(m, c, x);
    MirrorUpdate(m, c, y);
  }

  /** Different registers stay different whatever follows. */
  lemma UpdateStaysApart(m: Model, a: Word, b: Word, data: seq<Byte>)
    requires m.Valid() && |a| == |b| == m.bits && Reversible(m) && a != b
    ensures Update(m, a, data) != Update(m, b, data)
  {
    if Update(m, a, data) == Update(m, b, data) {
      ReversibleMirror(m);
      MirrorUpdate(m, a, data);
      MirrorUpdate(m, b, data);
      MessageInjective(Mirror(m, m.polynomial), Mirror(m, a), Mirror(m, b), MirrorBytes(m, data));
      MirrorInjective(m, a, b);
    }
  }

  lemma WindowRegisters(m: Model, c: Word, before: seq<Byte>, x: seq<Byte>, after: seq<Byte>)
    returns (c0: Word, cx: Word)
    requires m.Valid() && |c| == m.bits
    ensures |c0| == |cx| == m.bits && c0 == Update(m, c, before) && cx == Update(m, c0, x)
    ensures Update(m, c, before + x + after) == Update(m, cx, after)
  {
    c0 := Update(m, c, before);
    cx := Update(m, c0, x);
    UpdateConcat(m, c, before + x, after);
    UpdateConcat(m, c, before, x);
  }

  lemma UpdateDetects(m: Model, c: Word, before: seq<Byte>, x: seq<Byte>, y: seq<Byte>, after: seq<Byte>)
    requires m.Valid() && |c| == m.bits && Reversible(m) && |x| == |y| && 8 * |x| <= m.bits && x != y
    ensures Update(m, c, before + x + after) != Update(m, c, before + y + after)
  {
    var c0, cx := WindowRegisters(m, c, before, x, after);
    var _, cy := WindowRegisters(m, c, before, y, after);
    UpdateSeparates(m, c0, x, y);
    UpdateStaysApart(m, cx, cy, after);
  }

  /** The finalized checksums differ. */
  lemma ChecksumDetects(m: Model, before: seq<Byte>, x: seq<Byte>, y: seq<Byte>, after: seq<Byte>)
    requires m.Valid() && Reversible(m) && |x| == |y| && 8 * |x| <= m.bits && x != y
    ensures Checksum(m, before + x + after) != Checksum(m, before + y + after)
  {
    UpdateDetects(m, m.init, before, x, y, after);
    if Checksum(m, before + x + after) == Checksum(m, before + y + after) {
      FinalizedInjective(m, Update(m, m.init, before + x + after), Update(m, m.init, before + y + after));
    }
  }

  lemma MirrorBytesTwice(m: Model, x: seq<Byte>)
    ensures MirrorBytes(m, MirrorBytes(m, x)) == x
  {
    forall i | 0 <= i < |x| ensures MirrorBytes(m, MirrorBytes(m, x))[i] == x[i] {
      ReverseTwice(x[i]);
    }
  }

  /** Without reversibility two different messages of the register's length have one checksum. */
  lemma ChecksumMisses(m: Model) returns (x: seq<Byte>, y: seq<Byte>)
    requires m.Valid() && !Reversible(m)
    ensures |x| == |y| && 8 * |x| == m.bits && x != y && Checksum(m, x) == Checksum(m, y)
  {
    ReversibleMirror(m);
    var u, v := WindowMissed(Mirror(m, m.polynomial), Mirror(m, m.init));
    x, y := MirrorBytes(m, u), MirrorBytes(m, v);
    MirrorBytesTwice(m, u);
    MirrorBytesTwice(m, v);
    MirrorUpdate(m, m.init, x);
    MirrorUpdate(m, m.init, y);
    MirrorInjective(m, Update(m, m.init, x), Update(m, m.init, y));
  }

  ghost predicate Detected(m: Model, before: seq<Byte>, x: seq<Byte>, y: seq<Byte>, after: seq<Byte>)
    requires m.Valid()
  {
    Checksum(m, before + x + after) != Checksum(m, before + y + after)
  }

  /** All changes inside one window of Bits / 8 bytes. */
  ghost predicate DetectsWindows(m: Model)
    requires m.Valid()
  {
    forall before: seq<Byte>, x: seq<Byte>, y: seq<Byte>, after: seq<Byte> ::
      |x| == |y| && 8 * |x| <= m.bits && x != y ==> Detected(m, before, x, y, after)
  }

  lemma MissedWindow(m: Model) returns (x: seq<Byte>, y: seq<Byte>)
    requires m.Valid() && !Reversible(m)
    ensures |x| == |y| && 8 * |x| == m.bits && x != y && !Detected(m, [], x, y, [])
  {
    x, y := ChecksumMisses(m);
    WholeMessage(m, x);
    WholeMessage(m, y);
  }

  lemma WholeMessage(m: Model, x: seq<Byte>)
    requires m.Valid()
    ensures Checksum(m, [] + x + []) == Checksum(m, x)
  {
    assert [] + x + [] == x;
  }

  /** The exact condition on the polynomial. */
  lemma DetectionExactly(m: Model)
    requires m.Valid()
    ensures DetectsWindows(m) <==> Reversible(m)
  {
    if Reversible(m) {
      forall before: seq<Byte>, x: seq<Byte>, y: seq<Byte>, after: seq<Byte> | |x| == |y| && 8 * |x| <= m.bits && x != y
        ensures Detected(m, before, x, y, after)
      {
        ChecksumDetects(m, before, x, y, after);
      }
    } else {
      var x, y := MissedWindow(m);
    }
  }
}
