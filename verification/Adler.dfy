/** Adler-32 with the modulo delayed over chunks (RFC 1950, section 8.2). */
module Adler {
  import opened Arithmetic
  import opened MachineWords

  const MODULUS: UInt32 := 65521
  const NMAX := 5552

  /** One plus the sum of the bytes, never reduced. */
  ghost function A(data: seq<UInt8>): nat {
    if data == [] then 1 else A(data[..|data| - 1]) + data[|data| - 1]
  }

  /** The sum of the A values of all non-empty prefixes, never reduced. */
  ghost function B(data: seq<UInt8>): nat {
    if data == [] then 0 else B(data[..|data| - 1]) + A(data)
  }

  /** The checksum of a message as RFC 1950 defines it. */
  ghost function Adler32(data: seq<UInt8>): nat {
    (B(data) % MODULUS) * 65536 + A(data) % MODULUS
  }

  lemma SumsNext(data: seq<UInt8>, x: UInt8)
    ensures A(data + [x]) == A(data) + x && B(data + [x]) == B(data) + A(data + [x])
  {
    assert (data + [x])[..|data|] == data;
  }

  // ----- closed forms

  ghost function Total(data: seq<UInt8>): nat {
    if data == [] then 0 else data[0] as int + Total(data[1..])
  }

  /** The sum of the bytes, each as often as there are bytes from it to the end. */
  ghost function WeightedTotal(data: seq<UInt8>): nat {
    if data == [] then 0 else |data| * (data[0] as int) + WeightedTotal(data[1..])
  }

  lemma {:induction false} TotalsNext(data: seq<UInt8>, x: UInt8)
    ensures Total(data + [x]) == Total(data) + x
    ensures WeightedTotal(data + [x]) == WeightedTotal(data) + Total(data) + x
  {
    if data == [] {
      assert [x][1..] == [] && data + [x] == [x];
    } else {
      assert (data + [x])[1..] == data[1..] + [x];
      TotalsNext(data[1..], x);
      Distribute(|data|, 1, data[0] as int);
    }
  }

  /** The two sums of RFC 1950: 1 + d1 + ... + dn, and n + n * d1 + ... + 1 * dn. */
  lemma {:induction false} ClosedForms(data: seq<UInt8>)
    ensures A(data) == 1 + Total(data) && B(data) == |data| + WeightedTotal(data)
  {
    if data != [] {
      var front, x := data[..|data| - 1], data[|data| - 1];
      assert data == front + [x];
      ClosedForms(front);
      TotalsNext(front, x);
    }
  }

  /** The check value of the text "123456789". */
  lemma AdlerCheck()
    ensures Adler32([0x31, 0x32, 0x33, 0x34, 0x35, 0x36, 0x37, 0x38, 0x39]) == 0x091E01DE
  {
    var d: seq<UInt8> := [];
    assert A(d) == 1 && B(d) == 0;
    d := AddOne(d, 0x31, 50, 50);
    d := AddOne(d, 0x32, 100, 150);
    d := AddOne(d, 0x33, 151, 301);
    d := AddOne(d, 0x34, 203, 504);
    d := AddOne(d, 0x35, 256, 760);
    d := AddOne(d, 0x36, 310, 1070);
    d := AddOne(d, 0x37, 365, 1435);
    d := AddOne(d, 0x38, 421, 1856);
    d := AddOne(d, 0x39, 478, 2334);
    assert d == [0x31, 0x32, 0x33, 0x34, 0x35, 0x36, 0x37, 0x38, 0x39];
  }

  lemma AddOne(data: seq<UInt8>, x: UInt8, a: nat, b: nat) returns (more: seq<UInt8>)
    requires A(data) + x == a && B(data) + a == b
    ensures more == data + [x] && A(more) == a && B(more) == b
  {
    more := data + [x];
    SumsNext(data, x);
  }

  /** NMAX is the largest number of bytes that can be added to reduced sums without a reduction. */
  lemma LargestChunk(n: nat)
    ensures 255 * (n * (n + 1)) + 2 * ((n + 1) * (MODULUS - 1)) < 2 * 0x1_0000_0000 <==> n <= NMAX
  {
    if n <= NMAX {
      MulMonotonic(n, NMAX, n + 1);
      MulMonotonic(n + 1, NMAX + 1, MODULUS - 1);
    } else {
      MulMonotonic(NMAX + 1, n, n + 1);
      MulMonotonic(NMAX + 2, n + 1, MODULUS - 1);
    }
  }

  // ----- residues

  /** Reducing after every byte. */
  lemma ByteStep(a: int, ta: int, b: int, tb: int, x: int, ta': int, tb': int)
    requires a == ta % MODULUS && b == tb % MODULUS && ta' == ta + x && tb' == tb + ta'
    ensures (a + x) % MODULUS == ta' % MODULUS
    ensures (b + (a + x) % MODULUS) % MODULUS == tb' % MODULUS
  {
    AddCongruent(a, ta, x, x, MODULUS);
    AddCongruent(b, tb, (a + x) % MODULUS, ta + x, MODULUS);
  }

  /** After i bytes of a chunk that started from reduced sums, b still fits 32 bits. */
  lemma ChunkFits(i: nat, a: int, b: int)
    requires i <= NMAX && a <= MODULUS - 1 + 255 * i
    requires 2 * b <= 2 * (MODULUS - 1) * (i + 1) + 255 * (i * (i + 1))
    ensures a < 0x1_0000_0000 && b < 0x1_0000_0000
  {
    SquareBound(i);
  }

  lemma SquareBound(i: int)
    requires 0 <= i <= 5552
    ensures i * (i + 1) <= 5552 * 5553
  {
    MulMonotonic(i, 5552, i + 1);
  }

  lemma NextSquare(i: nat)
    ensures (i + 1) * (i + 2) == i * (i + 1) + 2 * (i + 1)
  {
  }

  class Adler32State {
    var a: UInt32
    var b: UInt32
    ghost var consumed: seq<UInt8>

    ghost predicate Valid()
      reads this
    {
      a == A(consumed) % MODULUS && b == B(consumed) % MODULUS
    }

    constructor ()
      ensures Valid() && consumed == []
    {
      a, b, consumed := 1, 0, [];
    }

    /** One chunk: the sums grow unreduced for at most NMAX bytes and are reduced at its end. */
    method AddChunk(data: seq<UInt8>)
      requires Valid() && |data| <= NMAX
      modifies this
      ensures Valid() && consumed == old(consumed) + data
    {
      ghost var start := consumed;
      var i := 0;
      assert start + data[..0] == start;
      while i < |data|
        invariant i <= |data| && consumed == start
        invariant a % MODULUS == A(start + data[..i]) % MODULUS
        invariant b % MODULUS == B(start + data[..i]) % MODULUS
        invariant a <= MODULUS - 1 + 255 * i
        invariant 2 * b <= 2 * (MODULUS - 1) * (i + 1) + 255 * (i * (i + 1))
      {
        ChunkStep(start, data, i, a, b);
        a := a + data[i];
        b := b + a;
        i := i + 1;
      }
      assert data[..|data|] == data;
      a := a % MODULUS;
      b := b % MODULUS;
      consumed := consumed + data;
    }

    /** Update, over chunks of NMAX bytes. */
    method Update(data: seq<UInt8>)
      requires Valid()
      modifies this
      ensures Valid() && consumed == old(consumed) + data
    {
      var offset := 0;
      assert consumed + data[..0] == consumed;
      while offset < |data|
        invariant offset <= |data| && Valid() && consumed == old(consumed) + data[..offset]
      {
        var remaining := |data| - offset;
        var chunk := if remaining > NMAX then NMAX else remaining;
        AddChunk(data[offset..offset + chunk]);
        assert data[..offset] + data[offset..offset + chunk] == data[..offset + chunk];
        offset := offset + chunk;
      }
      assert data[..|data|] == data;
    }

    method UpdateByte(byte: UInt8)
      requires Valid()
      modifies this
      ensures Valid() && consumed == old(consumed) + [byte]
    {
      SumsNext(consumed, byte);
      ByteStep(a, A(consumed), b, B(consumed), byte, A(consumed + [byte]), B(consumed + [byte]));
      a := (a + byte) % MODULUS;
      b := (b + a) % MODULUS;
      consumed := consumed + [byte];
    }

    /** Finalize: however the bytes were split into calls, the checksum of all of them. */
    method Finalize() returns (r: UInt32)
      requires Valid()
      ensures r == Adler32(consumed)
    {
      r := b * 65536 + a;
    }
  }

  /** One byte of a chunk: residues follow the unreduced sums and nothing wraps. */
  lemma ChunkStep(start: seq<UInt8>, data: seq<UInt8>, i: nat, a: int, b: int)
    requires i < |data| <= NMAX
    requires a % MODULUS == A(start + data[..i]) % MODULUS && b % MODULUS == B(start + data[..i]) % MODULUS
    requires a <= MODULUS - 1 + 255 * i && 2 * b <= 2 * (MODULUS - 1) * (i + 1) + 255 * (i * (i + 1))
    ensures (a + data[i]) % MODULUS == A(start + data[..i + 1]) % MODULUS
    ensures (b + (a + data[i])) % MODULUS == B(start + data[..i + 1]) % MODULUS
    ensures a + data[i] <= MODULUS - 1 + 255 * (i + 1) && a + data[i] < 0x1_0000_0000
    ensures 2 * (b + (a + data[i])) <= 2 * (MODULUS - 1) * (i + 2) + 255 * ((i + 1) * (i + 2))
    ensures b + (a + data[i]) < 0x1_0000_0000
  {
    var before := start + data[..i];
    assert start + data[..i + 1] == before + [data[i]];
    SumsNext(before, data[i]);
    AddCongruent(a, A(before), data[i], data[i], MODULUS);
    AddCongruent(b, B(before), a + data[i], A(before) + data[i], MODULUS);
    NextSquare(i);
    ChunkFits(i + 1, a + data[i], b + (a + data[i]));
  }
}
