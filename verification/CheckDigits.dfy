/**
 * Decimal check digits: Damm's quasigroup fold and Luhn's alternating sum.
 * A string that holds anything but '0'..'9' yields the marker 0xFF.
 */
module CheckDigits {
  import opened MachineWords
  import opened Numerals

  type Digit = d: int | 0 <= d <= 9

  const INVALID_DIGIT_CHECKSUM: UInt8 := 0xFF

  function DigitValue(ch: char): (v: int)
    ensures if IsDigit(ch) then 0 <= v <= 9 else v == -1
  {
    var digit := ch as int - '0' as int;
    if 0 <= digit <= 9 then digit else -1
  }

  function Values(text: string): (digits: seq<Digit>)
    requires AllDigits(text)
  {
    seq(|text|, i requires 0 <= i < |text| => DigitValue(text[i]))
  }

  /** s and t agree everywhere but at position i. */
  predicate DifferOnlyAt(s: seq<Digit>, t: seq<Digit>, i: nat) {
    && |s| == |t| && i < |s| && s[i] != t[i]
    && forall j :: 0 <= j < |s| && j != i ==> s[j] == t[j]
  }

  /** t is s with the distinct digits at i and i + 1 exchanged. */
  predicate AdjacentSwap(s: seq<Digit>, t: seq<Digit>, i: nat) {
    && |s| == |t| && i + 1 < |s| && s[i] != s[i + 1]
    && t[i] == s[i + 1] && t[i + 1] == s[i]
    && forall j :: 0 <= j < |s| && j != i && j != i + 1 ==> s[j] == t[j]
  }

  lemma FrontOf(s: seq<Digit>, t: seq<Digit>, i: nat)
    requires 0 < |s| && i < |s| - 1
    ensures DifferOnlyAt(s, t, i) ==> DifferOnlyAt(s[..|s| - 1], t[..|s| - 1], i) && s[|s| - 1] == t[|s| - 1]
    ensures i + 1 < |s| - 1 && AdjacentSwap(s, t, i) ==>
              AdjacentSwap(s[..|s| - 1], t[..|s| - 1], i) && s[|s| - 1] == t[|s| - 1]
  {
  }

  // ---------------------------------------------------------------- Damm

  /** The entry of one table row, given by its ten entries, in column d. */
  function Column(d: Digit, r0: Digit, r1: Digit, r2: Digit, r3: Digit, r4: Digit,
                  r5: Digit, r6: Digit, r7: Digit, r8: Digit, r9: Digit): (r: Digit)
  {
    if d == 0 then r0 else if d == 1 then r1 else if d == 2 then r2 else if d == 3 then r3 else if d == 4 then r4
    else if d == 5 then r5 else if d == 6 then r6 else if d == 7 then r7 else if d == 8 then r8 else r9
  }

  /** The table: one row for each interim digit, one column for each next digit. */
  function DammTable(interim: Digit, d: Digit): (r: Digit) {
    match interim
    case 0 => Column(d, 0, 3, 1, 7, 5, 9, 8, 6, 4, 2)
    case 1 => Column(d, 7, 0, 9, 2, 1, 5, 4, 8, 6, 3)
    case 2 => Column(d, 4, 2, 0, 6, 8, 7, 1, 3, 5, 9)
    case 3 => Column(d, 1, 7, 5, 0, 9, 8, 3, 4, 2, 6)
    case 4 => Column(d, 6, 1, 2, 3, 0, 4, 5, 9, 7, 8)
    case 5 => Column(d, 3, 6, 7, 4, 2, 0, 9, 5, 8, 1)
    case 6 => Column(d, 5, 8, 6, 9, 7, 2, 0, 1, 3, 4)
    case 7 => Column(d, 8, 9, 4, 5, 3, 6, 2, 0, 1, 7)
    case 8 => Column(d, 9, 4, 3, 8, 6, 1, 7, 2, 0, 5)
    case _ => Column(d, 2, 5, 8, 1, 4, 3, 6, 7, 9, 0)
  }

  /** Folding the table over the digits, left to right, from interim digit 0. */
  function DammOf(digits: seq<Digit>): (r: Digit) {
    if digits == [] then 0 else DammTable(DammOf(digits[..|digits| - 1]), digits[|digits| - 1])
  }

  /** The digits d and e take interim digit a to different places, alone and in either order. */
  predicate Separated(a: Digit, d: Digit, e: Digit) {
    && DammTable(a, d) != DammTable(a, e)
    && DammTable(DammTable(a, d), e) != DammTable(DammTable(a, e), d)
  }

  lemma SeparatedFrom0Or1(a: Digit, d: Digit, e: Digit)
    requires d != e && 0 <= a <= 1
    ensures Separated(a, d, e)
  {
    if a == 0 {
    } else {
    }
  }

  lemma SeparatedFrom2Or3(a: Digit, d: Digit, e: Digit)
    requires d != e && 2 <= a <= 3
    ensures Separated(a, d, e)
  {
    if a == 2 {
    } else {
    }
  }

  lemma SeparatedFrom4Or5(a: Digit, d: Digit, e: Digit)
    requires d != e && 4 <= a <= 5
    ensures Separated(a, d, e)
  {
    if a == 4 {
    } else {
    }
  }

  lemma SeparatedFrom6Or7(a: Digit, d: Digit, e: Digit)
    requires d != e && 6 <= a <= 7
    ensures Separated(a, d, e)
  {
    if a == 6 {
    } else {
    }
  }

  lemma SeparatedFrom8Or9(a: Digit, d: Digit, e: Digit)
    requires d != e && 8 <= a <= 9
    ensures Separated(a, d, e)
  {
    if a == 8 {
    } else {
    }
  }

  /** Every row is a permutation, and the table is totally anti-symmetric. */
  lemma DistinctDigitsSeparate(a: Digit, d: Digit, e: Digit)
    requires d != e
    ensures Separated(a, d, e)
  {
    if a <= 1 {
      SeparatedFrom0Or1(a, d, e);
    } else if a <= 3 {
      SeparatedFrom2Or3(a, d, e);
    } else if a <= 5 {
      SeparatedFrom4Or5(a, d, e);
    } else if a <= 7 {
      SeparatedFrom6Or7(a, d, e);
    } else {
      SeparatedFrom8Or9(a, d, e);
    }
  }

  /** Every column is a permutation. */
  lemma ColumnsAreInjective(a: Digit, b: Digit, d: Digit)
    requires a != b
    ensures DammTable(a, d) != DammTable(b, d)
  {
  }

  /** The zero diagonal, and nothing else in a row is zero. */
  lemma ZeroExactlyOnDiagonal(a: Digit, d: Digit)
    ensures DammTable(a, d) == 0 <==> a == d
  {
  }

  /** The check digit changes under every single-digit change. */
  lemma {:induction false} DammDetectsChange(s: seq<Digit>, t: seq<Digit>, i: nat)
    requires DifferOnlyAt(s, t, i)
    ensures DammOf(s) != DammOf(t)
  {
    var n := |s| - 1;
    if i == n {
      assert s[..n] == t[..n];
      DistinctDigitsSeparate(DammOf(s[..n]), s[n], t[n]);
    } else {
      FrontOf(s, t, i);
      DammDetectsChange(s[..n], t[..n], i);
      ColumnsAreInjective(DammOf(s[..n]), DammOf(t[..n]), s[n]);
    }
  }

  lemma DammOfTwoMore(s: seq<Digit>, n: nat)
    requires n + 2 == |s|
    ensures DammOf(s) == DammTable(DammTable(DammOf(s[..n]), s[n]), s[n + 1])
  {
    assert s[..n + 1][..n] == s[..n];
  }

  /** The check digit changes under every exchange of adjacent distinct digits. */
  lemma {:induction false} DammDetectsSwap(s: seq<Digit>, t: seq<Digit>, i: nat)
    requires AdjacentSwap(s, t, i)
    ensures DammOf(s) != DammOf(t)
  {
    var n := |s| - 1;
    if i + 1 == n {
      DammOfTwoMore(s, i);
      DammOfTwoMore(t, i);
      assert s[..i] == t[..i];
      DistinctDigitsSeparate(DammOf(s[..i]), s[i], s[i + 1]);
    } else {
      FrontOf(s, t, i);
      DammDetectsSwap(s[..n], t[..n], i);
      ColumnsAreInjective(DammOf(s[..n]), DammOf(t[..n]), s[n]);
    }
  }

  /** Appending a digit gives a string whose own check digit is 0 exactly when it is the check digit. */
  lemma DammCompletes(s: seq<Digit>, c: Digit)
    ensures DammOf(s + [c]) == 0 <==> c == DammOf(s)
  {
    assert (s + [c])[..|s|] == s;
    ZeroExactlyOnDiagonal(DammOf(s), c);
  }

  /** The published example: 572 has check digit 4. */
  lemma DammCheck()
    ensures DammOf(Values("572")) == 4
  {
    var d := Values("572");
    assert d == [5, 7, 2];
    assert d[..2] == [5, 7] && d[..2][..1] == [5] && d[..2][..1][..0] == [];
    assert DammOf([]) == 0 && DammOf([5]) == 9 && DammOf([5, 7]) == 7;
  }

  method Damm(text: string) returns (r: UInt8)
    ensures r == if AllDigits(text) then DammOf(Values(text)) else INVALID_DIGIT_CHECKSUM
    ensures r == INVALID_DIGIT_CHECKSUM <==> !AllDigits(text)
  {
    var interim: Digit := 0;
    var i := 0;
    while i < |text|
      invariant 0 <= i <= |text|
      invariant AllDigits(text[..i])
      invariant interim == DammOf(Values(text[..i]))
    {
      var digit := DigitValue(text[i]);
      if digit < 0 {
        return INVALID_DIGIT_CHECKSUM;
      }
      assert Values(text[..i + 1]) == Values(text[..i]) + [digit];
      assert Values(text[..i + 1])[..i] == Values(text[..i]);
      interim := DammTable(interim, digit);
      i := i + 1;
    }
    assert text[..i] == text;
    return interim;
  }

  // ---------------------------------------------------------------- Luhn

  /** What a digit adds to the sum. */
  function Weighted(d: Digit, double: bool): (v: Digit) {
    if !double then d else if 2 * d > 9 then 2 * d - 9 else 2 * d
  }

  /** The sum over the digits, doubling every second one leftwards; double says whether
      the rightmost one is doubled. */
  function LuhnSum(digits: seq<Digit>, double: bool): (sum: nat) {
    if digits == [] then 0
    else Weighted(digits[|digits| - 1], double) + LuhnSum(digits[..|digits| - 1], !double)
  }

  /** What brings a sum up to a multiple of ten. */
  function TensComplement(sum: nat): (r: Digit) {
    (10 - sum % 10) % 10
  }

  function LuhnOf(digits: seq<Digit>): (r: Digit) {
    TensComplement(LuhnSum(digits, true))
  }

  lemma ComplementsOfNearSums(x: nat, y: nat)
    requires -9 <= x - y <= 9
    ensures TensComplement(x) == TensComplement(y) <==> x == y
  {
    if x % 10 == y % 10 {
      assert x - y == 10 * (x / 10 - y / 10);
    }
  }

  lemma {:induction false} ChangedSum(s: seq<Digit>, t: seq<Digit>, i: nat, double: bool)
    requires DifferOnlyAt(s, t, i)
    ensures LuhnSum(s, double) != LuhnSum(t, double)
    ensures -9 <= LuhnSum(s, double) - LuhnSum(t, double) <= 9
  {
    var n := |s| - 1;
    if i == n {
      assert s[..n] == t[..n];
    } else {
      FrontOf(s, t, i);
      ChangedSum(s[..n], t[..n], i, !double);
    }
  }

  /** The check digit changes under every single-digit change. */
  lemma LuhnDetectsChange(s: seq<Digit>, t: seq<Digit>, i: nat)
    requires DifferOnlyAt(s, t, i)
    ensures LuhnOf(s) != LuhnOf(t)
  {
    ChangedSum(s, t, i, true);
    ComplementsOfNearSums(LuhnSum(s, true), LuhnSum(t, true));
  }

  lemma SumOfTwoMore(s: seq<Digit>, n: nat, double: bool)
    requires n + 2 == |s|
    ensures LuhnSum(s, double) == Weighted(s[n + 1], double) + Weighted(s[n], !double) + LuhnSum(s[..n], double)
  {
    assert s[..n + 1][..n] == s[..n];
  }

  predicate ZeroAndNine(d: Digit, e: Digit) {
    (d == 0 && e == 9) || (d == 9 && e == 0)
  }

  lemma SwappedWeights(d: Digit, e: Digit, double: bool)
    requires d != e
    ensures var change := Weighted(d, double) + Weighted(e, !double) - Weighted(e, double) - Weighted(d, !double);
            -9 <= change <= 9 && (change == 0 <==> ZeroAndNine(d, e))
  {
  }

  lemma {:induction false} SwappedSum(s: seq<Digit>, t: seq<Digit>, i: nat, double: bool)
    requires AdjacentSwap(s, t, i)
    ensures LuhnSum(s, double) == LuhnSum(t, double) <==> ZeroAndNine(s[i], s[i + 1])
    ensures -9 <= LuhnSum(s, double) - LuhnSum(t, double) <= 9
  {
    var n := |s| - 1;
    if i + 1 == n {
      SumOfTwoMore(s, i, double);
      SumOfTwoMore(t, i, double);
      assert s[..i] == t[..i];
      SwappedWeights(s[i + 1], s[i], double);
    } else {
      FrontOf(s, t, i);
      SwappedSum(s[..n], t[..n], i, !double);
    }
  }

  /** The check digit survives an exchange of adjacent distinct digits exactly when they are 0 and 9. */
  lemma LuhnDetectsSwap(s: seq<Digit>, t: seq<Digit>, i: nat)
    requires AdjacentSwap(s, t, i)
    ensures LuhnOf(s) == LuhnOf(t) <==> ZeroAndNine(s[i], s[i + 1])
  {
    SwappedSum(s, t, i, true);
    ComplementsOfNearSums(LuhnSum(s, true), LuhnSum(t, true));
  }

  /** The digit completes the number to a multiple of ten, and no other digit does. */
  lemma LuhnCompletes(s: seq<Digit>, c: Digit)
    ensures LuhnSum(s + [c], false) % 10 == 0 <==> c == LuhnOf(s)
  {
    assert (s + [c])[..|s|] == s;
  }

  /** The published example: 7992739871 has check digit 3. */
  lemma LuhnCheck()
    ensures LuhnOf(Values("7992739871")) == 3
  {
    var d := Values("7992739871");
    assert d == [7, 9, 9, 2, 7, 3, 9, 8, 7, 1];
    var s: seq<Digit> := [];
    assert LuhnSum(s, true) == 0;
    s := TwoMore(s, 7, 9, 16);
    s := TwoMore(s, 9, 2, 29);
    s := TwoMore(s, 7, 3, 42);
    s := TwoMore(s, 9, 8, 58);
    s := TwoMore(s, 7, 1, 67);
    assert s == d;
  }

  lemma TwoMore(s: seq<Digit>, d: Digit, e: Digit, sum: nat) returns (more: seq<Digit>)
    requires LuhnSum(s, true) + Weighted(d, false) + Weighted(e, true) == sum
    ensures more == s + [d, e] && LuhnSum(more, true) == sum
  {
    more := s + [d, e];
    SumOfTwoMore(more, |s|, true);
    assert more[..|s|] == s;
  }

  method Luhn(text: string) returns (r: UInt8)
    ensures r == if AllDigits(text) then LuhnOf(Values(text)) else INVALID_DIGIT_CHECKSUM
    ensures r == INVALID_DIGIT_CHECKSUM <==> !AllDigits(text)
  {
    var sum: nat := 0;
    var double := true;
    var i := |text| - 1;
    assert text[..|text|] == text;
    while i >= 0
      invariant -1 <= i < |text|
      invariant AllDigits(text[i + 1..])
      invariant AllDigits(text[..i + 1]) ==>
                  AllDigits(text) && LuhnSum(Values(text), true) == sum + LuhnSum(Values(text[..i + 1]), double)
      decreases i
    {
      var digit := DigitValue(text[i]);
      if digit < 0 {
        return INVALID_DIGIT_CHECKSUM;
      }
      var value := digit;
      if double {
        value := value * 2;
        if value > 9 {
          value := value - 9;
        }
      }
      if AllDigits(text[..i]) {
        assert Values(text[..i + 1]) == Values(text[..i]) + [digit];
        assert Values(text[..i + 1])[..i] == Values(text[..i]);
      }
      sum := sum + value;
      double := !double;
      i := i - 1;
    }
    return TensComplement(sum);
  }
}
