/** Decimal parsing and printing of BigInt and their round trips. */
module BigIntDecimal {
  import opened Arithmetic
  import opened MachineWords
  import opened BigIntLimbs
  import opened BigIntDigits
  import opened BigIntSigned
  import opened Numerals

  const BASE_DIGITS := 9

  // ----- decimal numerals

  ghost function Ten(n: nat): (p: nat)
    ensures p >= 1
  {
    if n == 0 then 1 else 10 * Ten(n - 1)
  }

  /** The number written by a digit string, most significant digit first. */
  ghost function Numeral(s: string): int {
    if s == [] then 0 else 10 * Numeral(s[..|s| - 1]) + (s[|s| - 1] as int - '0' as int)
  }

  /** How `os << value` writes an unsigned number. */
  function Decimal(n: nat): (s: string)
    ensures |s| >= 1 && AllDigits(s)
    ensures Numeral(s) == n
    ensures s[0] == '0' ==> s == "0"
  {
    if n < 10 then
      var c := ('0' as int + n) as char;
      assert [c][..0] == [];
      [c]
    else
      var front := Decimal(n / 10);
      var c := ('0' as int + n % 10) as char;
      assert (front + [c])[..|front|] == front;
      assert Numeral("0") == 0 by { assert "0"[..0] == []; }
      front + [c]
  }

  lemma {:induction false} NumeralBounds(s: string)
    requires AllDigits(s)
    ensures 0 <= Numeral(s) < Ten(|s|)
  {
    if s != [] {
      NumeralBounds(s[..|s| - 1]);
    }
  }

  lemma {:induction false} NumeralOfConcat(s: string, t: string)
    ensures Numeral(s + t) == Numeral(s) * Ten(|t|) + Numeral(t)
  {
    if t == [] {
      assert s + t == s;
    } else {
      var front := t[..|t| - 1];
      NumeralOfConcat(s, front);
      assert (s + t)[..|s + t| - 1] == s + front;
      Associate(Numeral(s), 10, Ten(|front|));
    }
  }

  lemma {:induction false} TenPowers(n: nat)
    ensures Ten(9 * n) == Power(n)
  {
    if n != 0 {
      TenPowers(n - 1);
      var k := 9 * (n - 1);
      assert Ten(k + 1) == 10 * Ten(k);
      assert Ten(k + 2) == 10 * Ten(k + 1);
      assert Ten(k + 3) == 10 * Ten(k + 2);
      assert Ten(k + 4) == 10 * Ten(k + 3);
      assert Ten(k + 5) == 10 * Ten(k + 4);
      assert Ten(k + 6) == 10 * Ten(k + 5);
      assert Ten(k + 7) == 10 * Ten(k + 6);
      assert Ten(k + 8) == 10 * Ten(k + 7);
      assert Ten(k + 9) == 10 * Ten(k + 8);
    }
  }

  lemma NineDigits()
    ensures Ten(9) == BASE
  {
    TenPowers(1);
    assert Power(0) == 1 && Power(1) == BASE * Power(0);
  }

  /** Digit strings of one length are determined by their number. */
  lemma {:induction false} NumeralIsInjective(s: string, t: string)
    requires AllDigits(s) && AllDigits(t) && |s| == |t| && Numeral(s) == Numeral(t)
    ensures s == t
  {
    if s != [] {
      var f, g := s[..|s| - 1], t[..|t| - 1];
      assert s[|s| - 1] == t[|t| - 1] && Numeral(f) == Numeral(g);
      NumeralIsInjective(f, g);
      assert s == f + [s[|s| - 1]] && t == g + [t[|t| - 1]];
    }
  }

  /** A leading non-zero digit makes a numeral at least Ten(length - 1). */
  lemma {:induction false} LeadingDigit(s: string)
    requires AllDigits(s) && |s| >= 1 && s[0] != '0'
    ensures Numeral(s) >= Ten(|s| - 1)
  {
    if |s| > 1 {
      LeadingDigit(s[..|s| - 1]);
    } else {
      assert s[..0] == [];
    }
  }

  /** A number has one numeral without leading zeros. */
  lemma NormalNumeralIsUnique(s: string, t: string)
    requires AllDigits(s) && AllDigits(t) && |s| >= 1 && |t| >= 1
    requires s[0] == '0' ==> s == "0"
    requires t[0] == '0' ==> t == "0"
    requires Numeral(s) == Numeral(t)
    ensures s == t
  {
    NumeralBounds(s);
    NumeralBounds(t);
    if s[0] == '0' || t[0] == '0' {
      assert Numeral("0") == 0 by { assert "0"[..0] == []; }
      if s[0] != '0' { LeadingDigit(s); }
      if t[0] != '0' { LeadingDigit(t); }
    } else {
      LeadingDigit(s);
      LeadingDigit(t);
      SameLength(s, t);
      SameLength(t, s);
      NumeralIsInjective(s, t);
    }
  }

  lemma SameLength(s: string, t: string)
    requires |t| >= 1 && Ten(|t| - 1) <= Numeral(t) == Numeral(s) < Ten(|s|)
    ensures |t| <= |s|
  {
    if |s| < |t| {
      TenMonotonic(|s|, |t| - 1);
    }
  }

  lemma {:induction false} TenMonotonic(m: nat, n: nat)
    requires m <= n
    ensures Ten(m) <= Ten(n)
    decreases n
  {
    if m < n {
      TenMonotonic(m, n - 1);
    }
  }

  // ----- signed decimal text

  predicate IsDecimal(s: string) {
    |s| >= 1 && var body := if s[0] == '-' then s[1..] else s; |body| >= 1 && AllDigits(body)
  }

  ghost function TextValue(s: string): int
    requires IsDecimal(s)
  {
    if s[0] == '-' then -Numeral(s[1..]) else Numeral(s)
  }

  /** The canonical text of an integer. */
  ghost function Text(n: int): string {
    if n < 0 then "-" + Decimal(-n) else Decimal(n)
  }

  /** Digits are decimal, highest first, behind the sign. */
  lemma TextExamples()
    ensures Text(-1203) == "-1203" && Text(0) == "0" && IsDecimal("-0042") && TextValue("-0042") == -42
  {
    NumeralOfFour('1', '2', '0', '3');
    NormalNumeralIsUnique(Decimal(1203), "1203");
    NumeralOfFour('0', '0', '4', '2');
    assert "-0042"[1..] == "0042";
  }

  lemma NumeralOfFour(a: char, b: char, c: char, d: char)
    ensures Numeral([a, b, c, d]) ==
            1000 * (a as int - 48) + 100 * (b as int - 48) + 10 * (c as int - 48) + (d as int - 48)
  {
    assert [a][..0] == [] && [a, b][..1] == [a] && [a, b, c][..2] == [a, b] && [a, b, c, d][..3] == [a, b, c];
    assert Numeral([a]) == a as int - 48;
    assert Numeral([a, b]) == 10 * Numeral([a]) + (b as int - 48);
    assert Numeral([a, b, c]) == 10 * Numeral([a, b]) + (c as int - 48);
  }

  function DropLeadingZeros(s: string): (r: string)
    requires AllDigits(s) && |s| >= 1
    ensures |r| >= 1 && AllDigits(r) && (r[0] == '0' ==> r == "0")
    ensures Numeral(r) == Numeral(s)
  {
    if |s| > 1 && s[0] == '0' then
      assert s == ['0'] + s[1..];
      NumeralOfConcat(['0'], s[1..]);
      assert Numeral(['0']) == 0 by { assert ['0'][..0] == []; }
      DropLeadingZeros(s[1..])
    else
      assert s[0] == '0' ==> s == "0";
      s
  }

  /** A decimal text with leading zeros, and a minus in front of zero, removed. */
  function Normalize(s: string): string
    requires IsDecimal(s)
  {
    if s[0] == '-' then
      var body := DropLeadingZeros(s[1..]);
      if body == "0" then "0" else "-" + body
    else
      DropLeadingZeros(s)
  }

  lemma ValueOfText(n: int)
    ensures IsDecimal(Text(n)) && TextValue(Text(n)) == n
  {
    if n < 0 {
      assert Text(n)[1..] == Decimal(-n);
    }
  }

  lemma TextOfValue(s: string)
    requires IsDecimal(s)
    ensures Text(TextValue(s)) == Normalize(s)
  {
    var body := if s[0] == '-' then s[1..] else s;
    var r := DropLeadingZeros(body);
    NumeralBounds(body);
    NormalNumeralIsUnique(r, Decimal(Numeral(body)));
    assert Numeral("0") == 0 by { assert "0"[..0] == []; }
    if s[0] == '-' && Numeral(body) == 0 {
      NormalNumeralIsUnique(r, "0");
    }
  }

  // ----- parsing

  /** `block * 10 + (c - '0')` in 32-bit arithmetic. */
  function AppendDigit(block: UInt32, c: char): UInt32 {
    (block * 10 + (c as int - '0' as int)) % 0x1_0000_0000
  }

  /** The inner loop: up to nine characters make one limb. */
  method ParseBlock(str: string, from: nat, to: nat) returns (block: UInt32)
    requires from <= to <= |str| && to - from <= BASE_DIGITS
    ensures AllDigits(str[from..to]) ==> block == Numeral(str[from..to]) && block < BASE
  {
    block := 0;
    var j := from;
    assert str[from..from] == [];
    while j < to
      invariant from <= j <= to
      invariant AllDigits(str[from..j]) ==> block == Numeral(str[from..j])
    {
      assert str[from..j + 1][..j - from] == str[from..j];
      BlockBound(str[from..j]);
      block := AppendDigit(block, str[j]);
      j := j + 1;
    }
    BlockBound(str[from..to]);
  }

  lemma BlockBound(s: string)
    requires |s| <= 9
    ensures AllDigits(s) ==> 0 <= Numeral(s) < BASE
    ensures AllDigits(s) && |s| < 9 ==> Numeral(s) < 100_000_000
  {
    if AllDigits(s) {
      NumeralBounds(s);
      NineDigits();
      TenMonotonic(|s|, 9);
      assert Ten(9) == 10 * Ten(8);
      if |s| < 9 {
        TenMonotonic(|s|, 8);
      }
    }
  }

  /** One more block in front of the suffix that starts at `to`. */
  lemma ParseStep(str: string, from: nat, to: nat, digits: seq<UInt32>, block: UInt32)
    requires from <= to <= |str| && |str| - to == 9 * |digits|
    requires Value(digits) == Numeral(str[to..]) && block == Numeral(str[from..to])
    ensures Value(digits + [block]) == Numeral(str[from..])
  {
    ValueOfAppend(digits, block);
    assert str[from..] == str[from..to] + str[to..];
    NumeralOfConcat(str[from..to], str[to..]);
    TenPowers(|digits|);
  }

  /** BigInt(const char*).  The empty string is zero; text that is not decimal is accepted by the
      source without complaint and nothing is claimed about it, except that a lone minus sign
      leaves a value without limbs. */
  method Parse(str: string) returns (r: BigInt)
    ensures str == "" ==> r.Canonical() && r.ToInt() == 0
    ensures str == "-" ==> r == BigInt([], true)
    ensures r.HasLimbs() <==> str != "-"
    ensures IsDecimal(str) ==> r.Canonical() && r.ToInt() == TextValue(str)
  {
    ZerosDenoteZero([0], 1);
    if str == "" {
      return BigInt([0], false);
    }
    var negative := str[0] == '-';
    var start := if negative then 1 else 0;
    var digits := ParseBlocks(str, start);
    if IsDecimal(str) && negative {
      assert str[start..] == str[1..];
    }
    if IsDecimal(str) && !negative {
      assert str[start..] == str;
    }
    digits := Strip(digits);
    r := BigInt(digits, negative);
    if r.IsZero() {
      r := BigInt(digits, false);
    }
    if IsDecimal(str) {
      ZeroTest(r);
    }
  }

  /** The outer loop: blocks of nine characters from the end of the string. */
  method ParseBlocks(str: string, start: nat) returns (digits: seq<UInt32>)
    requires start <= |str|
    ensures digits == [] <==> start == |str|
    ensures start < |str| && AllDigits(str[start..]) ==>
              |digits| >= 1 && IsLimbs(digits) && Value(digits) == Numeral(str[start..])
  {
    digits := [];
    var i := |str|;
    ghost var at: nat := |str|;
    ghost var ok := AllDigits(str[start..]);
    assert str[at..] == [];
    while i > start
      invariant at == (if i > start then i else start) && at <= |str|
      invariant i > start ==> |str| - i == 9 * |digits|
      invariant at < |str| ==> |digits| >= 1
      invariant at == |str| ==> digits == []
      invariant ok ==> IsLimbs(digits) && Value(digits) == Numeral(str[at..])
    {
      var from := if start < i - BASE_DIGITS then i - BASE_DIGITS else start;
      var block := ParseBlock(str, from, i);
      if ok {
        forall k | 0 <= k < i - from ensures IsDigit(str[from..i][k]) {
          assert str[from..i][k] == str[start..][from - start + k];
        }
        ParseStep(str, from, i, digits, block);
      }
      digits := digits + [block];
      i := i - BASE_DIGITS;
      at := from;
    }
  }

  // ----- printing

  /** A limb below the top one is written with nine digits, zero-filled on the left. */
  function Padded(limb: UInt32): (s: string)
    requires limb < BASE
    ensures |s| == 9 && AllDigits(s) && Numeral(s) == limb
  {
    var d := Decimal(limb);
    ShortDecimal(limb);
    var zeros: string := seq(9 - |d|, _ => '0');
    NumeralOfConcat(zeros, d);
    ZerosNumeral(9 - |d|);
    zeros + d
  }

  lemma ShortDecimal(limb: UInt32)
    requires limb < BASE
    ensures |Decimal(limb)| <= 9
  {
    var d := Decimal(limb);
    NineDigits();
    if d[0] != '0' {
      LeadingDigit(d);
    }
    if |d| > 9 {
      TenMonotonic(9, |d| - 1);
    }
  }

  lemma {:induction false} ZerosNumeral(n: nat)
    ensures Numeral(seq(n, _ => '0')) == 0
  {
    if n != 0 {
      ZerosNumeral(n - 1);
      assert seq(n, _ => '0')[..n - 1] == seq(n - 1, _ => '0');
    }
  }

  /** operator<<: the text of the denoted integer.  A number without limbs prints as a zero that keeps its sign. */
  method Print(b: BigInt) returns (s: string)
    requires b.Sound()
    ensures b.HasLimbs() ==> s == Text(b.ToInt())
    ensures !b.HasLimbs() ==> s == if b.negative then "-0" else "0"
  {
    if !b.HasLimbs() {
      return if b.negative then "-0" else "0";
    }
    ZeroTest(b);
    var body := PrintLimbs(b.digits);
    PrintedText(b, body);
    if b.negative && !b.IsZero() {
      s := "-" + body;
    } else {
      s := body;
    }
  }

  lemma PrintedText(b: BigInt, body: string)
    requires |body| >= 1 && AllDigits(body) && (body[0] == '0' ==> body == "0")
    requires Numeral(body) == b.Magnitude()
    ensures Text(b.ToInt()) == if b.negative && b.Magnitude() != 0 then "-" + body else body
  {
    NormalNumeralIsUnique(body, Decimal(b.Magnitude()));
  }

  /** The text of the limbs from i on: their number, digits only, no leading zero. */
  ghost predicate Printed(digits: seq<UInt32>, i: nat, body: string)
    requires i < |digits|
  {
    && |body| >= 1 && AllDigits(body)
    && (body[0] == '0' ==> body == "0" && |digits| == 1)
    && Numeral(body) == Value(digits[i..])
  }

  lemma PrintTop(digits: seq<UInt32>)
    requires IsLimbs(digits) && Trimmed(digits) && |digits| >= 1
    ensures Printed(digits, |digits| - 1, Decimal(digits[|digits| - 1]))
  {
    var top := digits[|digits| - 1];
    assert digits[|digits| - 1..] == [] + [top];
    ValueOfAppend([], top);
    assert Value([]) == 0 && Power(0) == 1;
    assert Numeral("0") == 0 by { assert "0"[..0] == []; }
  }

  lemma NineMore(body: string, nine: string)
    requires |nine| == 9
    ensures Numeral(body + nine) == Numeral(body) * BASE + Numeral(nine)
  {
    NumeralOfConcat(body, nine);
    NineDigits();
  }

  lemma PrintNext(digits: seq<UInt32>, i: nat, body: string)
    requires IsLimbs(digits) && i + 1 < |digits| && Printed(digits, i + 1, body)
    ensures Printed(digits, i, body + Padded(digits[i]))
  {
    NineMore(body, Padded(digits[i]));
    TopLimbs(digits, i);
  }

  method PrintLimbs(digits: seq<UInt32>) returns (body: string)
    requires IsLimbs(digits) && Trimmed(digits) && |digits| >= 1
    ensures |body| >= 1 && AllDigits(body) && (body[0] == '0' ==> body == "0")
    ensures Numeral(body) == Value(digits)
  {
    var i := |digits| - 1;
    body := Decimal(digits[i]);
    PrintTop(digits);
    while i > 0
      invariant 0 <= i < |digits|
      invariant Printed(digits, i, body)
    {
      i := i - 1;
      PrintNext(digits, i, body);
      body := body + Padded(digits[i]);
    }
    assert digits[0..] == digits;
  }

  // ----- round trips

  /** Reading back what was printed gives the same value. */
  method ParsePrinted(b: BigInt) returns (r: BigInt)
    requires b.Canonical()
    ensures r == b
  {
    var s := Print(b);
    ValueOfText(b.ToInt());
    r := Parse(s);
    EqualityIsNumeric(r, b);
  }

  /** Printing what was read gives the text in normal form. */
  method PrintParsed(s: string) returns (t: string)
    requires IsDecimal(s)
    ensures t == Normalize(s)
  {
    var b := Parse(s);
    t := Print(b);
    TextOfValue(s);
  }
}
