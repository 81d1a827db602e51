/** Checksums over big-endian 16-bit words with a pending odd byte: the Internet checksum
    (RFC 1071) and Fletcher-32. */
module WordChecksums {
  import opened Arithmetic
  import opened MachineWords

  const ONES: UInt16 := 0xFFFF

  // ----- the words of a byte stream

  /** ReadBigEndianUInt16. */
  function BigEndian(hi: UInt8, lo: UInt8): UInt16 {
    256 * (hi as int) + lo as int
  }

  /** The complete words of a message; a trailing odd byte is left out. */
  ghost function Words(d: seq<UInt8>): (ws: seq<UInt16>)
    ensures |ws| == |d| / 2
  {
    seq(|d| / 2, i requires 0 <= i < |d| / 2 => BigEndian(d[2 * i], d[2 * i + 1]))
  }

  lemma TakeTwo(before: seq<UInt8>, d: seq<UInt8>, i: nat)
    requires i + 2 <= |d|
    ensures before + d[..i] + [d[i], d[i + 1]] == before + d[..i + 2]
  {
    assert d[..i + 2] == d[..i] + [d[i], d[i + 1]];
  }

  lemma WordsOfPair(d: seq<UInt8>, x: UInt8, y: UInt8)
    requires |d| % 2 == 0
    ensures Words(d + [x, y]) == Words(d) + [BigEndian(x, y)]
  {
  }

  lemma WordsOfOdd(d: seq<UInt8>, x: UInt8)
    requires |d| % 2 == 0
    ensures Words(d + [x]) == Words(d)
  {
  }

  /** Completing the word of a pending odd byte. */
  lemma WordsOfCompletion(d: seq<UInt8>, y: UInt8)
    requires |d| % 2 == 1
    ensures Words(d + [y]) == Words(d) + [BigEndian(d[|d| - 1], y)]
  {
  }

  ghost function Sum(ws: seq<UInt16>): nat {
    if ws == [] then 0 else Sum(ws[..|ws| - 1]) + ws[|ws| - 1]
  }

  /** Sum of the running sums. */
  ghost function SumOfSums(ws: seq<UInt16>): nat {
    if ws == [] then 0 else SumOfSums(ws[..|ws| - 1]) + Sum(ws)
  }

  lemma SumNext(ws: seq<UInt16>, w: UInt16)
    ensures Sum(ws + [w]) == Sum(ws) + w && SumOfSums(ws + [w]) == SumOfSums(ws) + Sum(ws + [w])
  {
    assert (ws + [w])[..|ws|] == ws;
  }

  /** The pending byte of a stream as the high byte of a zero-padded word, or zero. */
  ghost function Pending(d: seq<UInt8>): UInt16 {
    if |d| % 2 == 1 then BigEndian(d[|d| - 1], 0) else 0
  }

  // ----- one's complement sums

  /** The one's complement representative of a total: zero only for the empty sum. */
  ghost function OnesSum(total: nat): UInt16 {
    if total == 0 then 0 else (total - 1) % 65535 + 1
  }

  /** Adding a word and folding the carry back keeps the representative. */
  lemma FoldStep(total: nat, w: UInt16)
    ensures var s := OnesSum(total) + w; s % 65536 + s / 65536 == OnesSum(total + w)
  {
  }

  /** The arithmetic of AddWord. */
  method FoldIn(sum: UInt32, word: UInt16, ghost total: nat, ghost total': nat) returns (r: UInt32)
    requires sum == OnesSum(total) && total' == total + word
    ensures r == OnesSum(total') && r <= 0xFFFF
  {
    FoldStep(total, word);
    var s: UInt32 := sum + word;
    r := s % 65536 + s / 65536;
  }

  /** The checksum of a message: the complement of the one's complement sum, odd byte zero-padded. */
  ghost function Checksum16(d: seq<UInt8>): UInt16 {
    ONES - OnesSum(Sum(Words(d)) + Pending(d))
  }

  /** Appending the checksum to an even-length message makes the whole sum to all ones. */
  lemma ChecksumVerifies(d: seq<UInt8>)
    requires |d| % 2 == 0
    ensures var c := Checksum16(d); Checksum16(d + [c / 256, c % 256]) == 0
  {
    var c := Checksum16(d);
    SplitWord(c);
    AppendedChecksum(d, c, c / 256, c % 256);
  }

  lemma SplitWord(c: UInt16)
    ensures 0 <= c / 256 < 256 && 0 <= c % 256 < 256 && BigEndian(c / 256, c % 256) == c
  {
  }

  lemma AppendedChecksum(d: seq<UInt8>, c: UInt16, x: UInt8, y: UInt8)
    requires |d| % 2 == 0 && c == Checksum16(d) && BigEndian(x, y) == c
    ensures Checksum16(d + [x, y]) == 0
  {
    WordsOfPair(d, x, y);
    SumNext(Words(d), c);
    Complement(Sum(Words(d)), c, Sum(Words(d + [x, y])));
  }

  lemma Complement(total: nat, c: UInt16, total': nat)
    requires c == ONES - OnesSum(total) && total' == total + c
    ensures OnesSum(total') == ONES
  {
  }

  /** FoldUInt32ToUInt16. */
  method FoldUInt32ToUInt16(value: UInt32) returns (r: UInt16)
    ensures r == OnesSum(value)
  {
    var sum: UInt32 := value;
    while sum / 65536 != 0
      invariant OnesSum(sum) == OnesSum(value)
      decreases sum
    {
      FoldOnce(sum);
      sum := sum % 65536 + sum / 65536;
    }
    r := sum;
  }

  lemma FoldOnce(sum: nat)
    requires sum >= 65536
    ensures sum % 65536 + sum / 65536 < sum && OnesSum(sum % 65536 + sum / 65536) == OnesSum(sum)
  {
    assert sum == 65535 * (sum / 65536) + (sum % 65536 + sum / 65536);
  }

  class Checksum16State {
    var sum: UInt32
    var hasOddByte: bool
    var oddByte: UInt8
    ghost var consumed: seq<UInt8>

    /** The sum stays within 16 bits after each word. */
    ghost predicate Valid()
      reads this
    {
      && sum == OnesSum(Sum(Words(consumed))) && sum <= 0xFFFF
      && (hasOddByte <==> |consumed| % 2 == 1)
      && oddByte == if hasOddByte then consumed[|consumed| - 1] else 0
    }

    constructor ()
      ensures Valid() && consumed == []
    {
      sum, hasOddByte, oddByte, consumed := 0, false, 0, [];
    }

    /** AddWord, when `bytes` complete the next word. */
    method AddWord(word: UInt16, ghost bytes: seq<UInt8>)
      requires sum == OnesSum(Sum(Words(consumed))) && Words(consumed + bytes) == Words(consumed) + [word]
      modifies this`sum
      ensures sum == OnesSum(Sum(Words(consumed + bytes))) && sum <= 0xFFFF
    {
      SumNext(Words(consumed), word);
      sum := FoldIn(sum, word, Sum(Words(consumed)), Sum(Words(consumed + bytes)));
    }

    method Update(data: seq<UInt8>)
      requires Valid()
      modifies this
      ensures Valid() && consumed == old(consumed) + data
    {
      if hasOddByte && |data| > 0 {
        CompleteWord(data[0]);
        AppendWords(data[1..]);
        assert [data[0]] + data[1..] == data;
      } else if |data| > 0 {
        AppendWords(data);
      }
    }

    /** Whole words first, then a byte that is left over. */
    method AppendWords(data: seq<UInt8>)
      requires Valid() && !hasOddByte
      modifies this
      ensures Valid() && consumed == old(consumed) + data
    {
      var i := 0;
      assert consumed + data[..0] == consumed;
      while |data| - i >= 2
        invariant i <= |data| && Valid() && !hasOddByte && consumed == old(consumed) + data[..i]
      {
        TakeTwo(old(consumed), data, i);
        AppendPair(data[i], data[i + 1]);
        i := i + 2;
      }
      if |data| - i == 1 {
        KeepOddByte(data[i]);
        assert data[..i] + [data[i]] == data;
      } else {
        assert data[..i] == data;
      }
    }

    /** The pending byte and the first new one make a word. */
    method CompleteWord(y: UInt8)
      requires Valid() && hasOddByte
      modifies this
      ensures Valid() && !hasOddByte && consumed == old(consumed) + [y]
    {
      WordsOfCompletion(consumed, y);
      AddWord(BigEndian(oddByte, y), [y]);
      consumed := consumed + [y];
      hasOddByte, oddByte := false, 0;
    }

    method AppendPair(x: UInt8, y: UInt8)
      requires Valid() && !hasOddByte
      modifies this
      ensures Valid() && !hasOddByte && consumed == old(consumed) + [x, y]
    {
      WordsOfPair(consumed, x, y);
      AddWord(BigEndian(x, y), [x, y]);
      consumed := consumed + [x, y];
    }

    method KeepOddByte(x: UInt8)
      requires Valid() && !hasOddByte
      modifies this
      ensures Valid() && consumed == old(consumed) + [x]
    {
      WordsOfOdd(consumed, x);
      hasOddByte, oddByte := true, x;
      consumed := consumed + [x];
    }

    /** Finalize: the checksum of everything consumed, in whatever pieces it came. */
    method Finalize() returns (r: UInt16)
      requires Valid()
      ensures r == Checksum16(consumed)
    {
      var s: UInt32 := sum;
      if hasOddByte {
        s := s + BigEndian(oddByte, 0);
      }
      OnesSumAbsorbs(Sum(Words(consumed)), Pending(consumed), s);
      var folded := FoldUInt32ToUInt16(s);
      r := 0xFFFF - folded;
    }
  }

  lemma OnesSumAbsorbs(total: nat, w: UInt16, s: nat)
    requires s == OnesSum(total) + w
    ensures OnesSum(s) == OnesSum(total + w)
  {
  }

  // ----- Fletcher-32

  /** Fletcher-32 of a message: sums modulo 65535 over words, odd byte zero-padded. */
  ghost function Fletcher32(d: seq<UInt8>): nat {
    var ws := if |d| % 2 == 1 then Words(d) + [Pending(d)] else Words(d);
    (SumOfSums(ws) % 65535) * 65536 + Sum(ws) % 65535
  }

  class Fletcher32State {
    var sum1: UInt32
    var sum2: UInt32
    var hasOddByte: bool
    var oddByte: UInt8
    ghost var consumed: seq<UInt8>

    ghost predicate Valid()
      reads this
    {
      && sum1 == Sum(Words(consumed)) % 65535 && sum2 == SumOfSums(Words(consumed)) % 65535
      && (hasOddByte <==> |consumed| % 2 == 1)
      && oddByte == if hasOddByte then consumed[|consumed| - 1] else 0
    }

    constructor ()
      ensures Valid() && consumed == []
    {
      sum1, sum2, hasOddByte, oddByte, consumed := 0, 0, false, 0, [];
    }

    method AddWord(word: UInt16, ghost bytes: seq<UInt8>)
      requires sum1 == Sum(Words(consumed)) % 65535 && sum2 == SumOfSums(Words(consumed)) % 65535
      requires Words(consumed + bytes) == Words(consumed) + [word]
      modifies this`sum1, this`sum2
      ensures sum1 == Sum(Words(consumed + bytes)) % 65535 && sum2 == SumOfSums(Words(consumed + bytes)) % 65535
    {
      var next1: UInt32 := (sum1 + word) % 65535;
      FletcherStep(Words(consumed), word, Words(consumed + bytes), sum1, sum2, next1);
      sum1 := next1;
      sum2 := (sum2 + sum1) % 65535;
    }

    method Update(data: seq<UInt8>)
      requires Valid()
      modifies this
      ensures Valid() && consumed == old(consumed) + data
    {
      if hasOddByte && |data| > 0 {
        CompleteWord(data[0]);
        AppendWords(data[1..]);
        assert [data[0]] + data[1..] == data;
      } else if |data| > 0 {
        AppendWords(data);
      }
    }

    /** Whole words first, then a byte that is left over. */
    method AppendWords(data: seq<UInt8>)
      requires Valid() && !hasOddByte
      modifies this
      ensures Valid() && consumed == old(consumed) + data
    {
      var i := 0;
      assert consumed + data[..0] == consumed;
      while |data| - i >= 2
        invariant i <= |data| && Valid() && !hasOddByte && consumed == old(consumed) + data[..i]
      {
        TakeTwo(old(consumed), data, i);
        AppendPair(data[i], data[i + 1]);
        i := i + 2;
      }
      if |data| - i == 1 {
        KeepOddByte(data[i]);
        assert data[..i] + [data[i]] == data;
      } else {
        assert data[..i] == data;
      }
    }

    /** The pending byte and the first new one make a word. */
    method CompleteWord(y: UInt8)
      requires Valid() && hasOddByte
      modifies this
      ensures Valid() && !hasOddByte && consumed == old(consumed) + [y]
    {
      WordsOfCompletion(consumed, y);
      AddWord(BigEndian(oddByte, y), [y]);
      consumed := consumed + [y];
      hasOddByte, oddByte := false, 0;
    }

    method AppendPair(x: UInt8, y: UInt8)
      requires Valid() && !hasOddByte
      modifies this
      ensures Valid() && !hasOddByte && consumed == old(consumed) + [x, y]
    {
      WordsOfPair(consumed, x, y);
      AddWord(BigEndian(x, y), [x, y]);
      consumed := consumed + [x, y];
    }

    method KeepOddByte(x: UInt8)
      requires Valid() && !hasOddByte
      modifies this
      ensures Valid() && consumed == old(consumed) + [x]
    {
      WordsOfOdd(consumed, x);
      hasOddByte, oddByte := true, x;
      consumed := consumed + [x];
    }

    method Finalize() returns (r: UInt32)
      requires Valid()
      ensures r == Fletcher32(consumed)
    {
      var s1: UInt32, s2: UInt32 := sum1, sum2;
      if hasOddByte {
        ghost var before := s1;
        s1 := (s1 + BigEndian(oddByte, 0)) % 65535;
        FletcherStep(Words(consumed), BigEndian(oddByte, 0), Words(consumed) + [BigEndian(oddByte, 0)], before, s2, s1);
        s2 := (s2 + s1) % 65535;
      }
      r := s2 * 65536 + s1;
    }
  }

  // ----- what the sums mean

  /** The one's complement sum is the total modulo 65535, with 65535 in place of zero for all but the empty total. */
  lemma OnesSumIsResidue(total: nat)
    ensures OnesSum(total) % 65535 == total % 65535 && (OnesSum(total) == 0 <==> total == 0)
  {
    if total > 0 {
      AddMultiple((total - 1) % 65535 + 1, (total - 1) / 65535, 65535);
    }
  }

  /** The words of a message, a trailing odd byte padded with zero. */
  lemma PaddedWords(d: seq<UInt8>)
    requires |d| % 2 == 1
    ensures Words(d + [0]) == Words(d) + [Pending(d)] && Pending(d + [0]) == 0
  {
    WordsOfCompletion(d, 0);
  }

  /** Padding a message of odd length with a zero byte changes neither checksum. */
  lemma PaddingIsSilent(d: seq<UInt8>)
    requires |d| % 2 == 1
    ensures Checksum16(d + [0]) == Checksum16(d) && Fletcher32(d + [0]) == Fletcher32(d)
  {
    PaddedWords(d);
    SumNext(Words(d), Pending(d));
  }

  ghost function WeightedSum(ws: seq<UInt16>): nat {
    if ws == [] then 0 else |ws| * (ws[0] as int) + WeightedSum(ws[1..])
  }

  lemma {:induction false} WeightedNext(ws: seq<UInt16>, w: UInt16)
    ensures WeightedSum(ws + [w]) == WeightedSum(ws) + Sum(ws) + w
  {
    if ws == [] {
      assert [w][1..] == [] && ws + [w] == [w];
    } else {
      assert (ws + [w])[1..] == ws[1..] + [w];
      WeightedNext(ws[1..], w);
      SumOfFirst(ws);
      Distribute(|ws|, 1, ws[0] as int);
    }
  }

  lemma {:induction false} SumOfFirst(ws: seq<UInt16>)
    requires ws != []
    ensures Sum(ws) == ws[0] as int + Sum(ws[1..])
  {
    if |ws| > 1 {
      var front, last := ws[..|ws| - 1], ws[|ws| - 1];
      SumOfFirst(front);
      assert ws[1..][..|ws| - 2] == front[1..];
    }
  }

  /** The second sum of Fletcher-32 counts each word as often as there are words from it to the end. */
  lemma {:induction false} SumOfSumsIsWeighted(ws: seq<UInt16>)
    ensures SumOfSums(ws) == WeightedSum(ws)
  {
    if ws != [] {
      var front, w := ws[..|ws| - 1], ws[|ws| - 1];
      assert ws == front + [w];
      SumOfSumsIsWeighted(front);
      WeightedNext(front, w);
    }
  }

  /** The check values of the text "123456789". */
  lemma WordChecks()
    ensures var d := [0x31, 0x32, 0x33, 0x34, 0x35, 0x36, 0x37, 0x38, 0x39];
            Checksum16(d) == 0xF62A && Fletcher32(d) == 0x09DF09D5
  {
    var d: seq<UInt8> := [0x31, 0x32, 0x33, 0x34, 0x35, 0x36, 0x37, 0x38, 0x39];
    assert Words(d)[0] == 0x3132 && Words(d)[1] == 0x3334 && Words(d)[2] == 0x3536 && Words(d)[3] == 0x3738;
    assert Pending(d) == 0x3900;
    var ws: seq<UInt16> := [];
    assert Sum(ws) == 0 && SumOfSums(ws) == 0;
    ws := AddOne(ws, 0x3132, 12594, 12594);
    ws := AddOne(ws, 0x3334, 25702, 38296);
    ws := AddOne(ws, 0x3536, 39324, 77620);
    ws := AddOne(ws, 0x3738, 53460, 131080);
    assert ws == Words(d);
    ws := AddOne(ws, 0x3900, 68052, 199132);
  }

  lemma AddOne(ws: seq<UInt16>, w: UInt16, sum: nat, sums: nat) returns (more: seq<UInt16>)
    requires Sum(ws) + w == sum && SumOfSums(ws) + sum == sums
    ensures more == ws + [w] && Sum(more) == sum && SumOfSums(more) == sums
  {
    more := ws + [w];
    SumNext(ws, w);
  }

  /** One word on reduced sums. */
  lemma FletcherStep(ws: seq<UInt16>, w: UInt16, ws': seq<UInt16>, s1: int, s2: int, s1': int)
    requires ws' == ws + [w] && s1' == (s1 + w) % 65535
    requires s1 == Sum(ws) % 65535 && s2 == SumOfSums(ws) % 65535
    ensures s1' == Sum(ws') % 65535 && (s2 + s1') % 65535 == SumOfSums(ws') % 65535
  {
    SumNext(ws, w);
    FletcherArithmetic(s1, Sum(ws), s2, SumOfSums(ws), w, Sum(ws + [w]), SumOfSums(ws + [w]));
  }

  lemma FletcherArithmetic(s1: int, t1: int, s2: int, t2: int, w: int, t1': int, t2': int)
    requires s1 == t1 % 65535 && s2 == t2 % 65535 && t1' == t1 + w && t2' == t2 + t1'
    ensures (s1 + w) % 65535 == t1' % 65535
    ensures (s2 + (s1 + w) % 65535) % 65535 == t2' % 65535
  {
    AddCongruent(s1, t1, w, w, 65535);
    AddCongruent(s2, t2, (s1 + w) % 65535, t1 + w, 65535);
  }
}
