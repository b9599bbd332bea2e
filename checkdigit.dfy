/** The GS1 mod-10 check digit (section 7.9.1 of the GS1 General
    Specifications) and the three ways the application computes it:
    `calculateCheckDigit` in src/App.tsx (reverse, loop, ceiling), the
    `reduce` in `computeGs1CheckDigit` of src/pages/ArticlesPage.tsx (see
    module Gtin), and the left-indexed loop inside `calculateSSCC` of
    src/pages/PalletCompositionPage.tsx (see module Sscc). */
module CheckDigit {
  import opened Strings

  /** A digit value weighed by 3 or by 1. */
  function Weighted(tripled: bool, v: nat): nat {
    if tripled then 3 * v else v
  }

  /** Weighted sum read from the right: the last digit weighs 3 when
      `tripled`, and the weights alternate leftwards. */
  function RightSumFrom(s: string, tripled: bool): nat
    requires IsDigits(s)
  {
    if s == [] then 0
    else Weighted(tripled, Digit(s[|s| - 1])) + RightSumFrom(s[..|s| - 1], !tripled)
  }

  /** The GS1 weighted sum of a body: the rightmost digit weighs 3, the next
      1, and so on. */
  function RightSum(s: string): nat
    requires IsDigits(s)
  {
    RightSumFrom(s, true)
  }

  /** Weighted sum read from the left: the first digit weighs 3 when
      `tripled`, and the weights alternate rightwards. Over the reversed
      code this is the index rule `idx % 2 === 0 ? 3 : 1` of the
      right-to-left loops; over the body itself it is the rule of
      `calculateSSCC`. */
  function LeftSumFrom(s: string, tripled: bool): nat
    requires IsDigits(s)
  {
    if s == [] then 0
    else Weighted(tripled, Digit(s[0])) + LeftSumFrom(s[1..], !tripled)
  }

  /** The digit that brings a weighted sum up to a multiple of ten:
      `(10 - sum % 10) % 10`. */
  function CompletingDigit(sum: nat): (d: nat)
    ensures d < 10
    ensures (sum + d) % 10 == 0
  {
    (10 - sum % 10) % 10
  }

  /** It is the only such digit. */
  lemma CompletingDigitUnique(sum: nat, d: nat)
    requires d < 10 && (sum + d) % 10 == 0
    ensures d == CompletingDigit(sum)
  {
    var m := sum % 10;
    assert (m + d) % 10 == 0;
    if m != 0 {
      assert m + d == 10;
    }
  }

  /** The GS1 check digit of a body. */
  function CheckDigitOf(s: string): (d: nat)
    requires IsDigits(s)
    ensures d < 10
    ensures (RightSum(s) + d) % 10 == 0
  {
    CompletingDigit(RightSum(s))
  }

  /** No other digit completes the GS1 sum to a multiple of ten. */
  lemma CheckDigitUnique(s: string, d: nat)
    requires IsDigits(s) && d < 10
    requires (RightSum(s) + d) % 10 == 0
    ensures d == CheckDigitOf(s)
  {
    CompletingDigitUnique(RightSum(s), d);
  }

  /** A complete code (body then check digit) is valid. */
  predicate HasValidCheckDigit(code: string) {
    |code| >= 1 && IsDigits(code)
    && Digit(code[|code| - 1]) == CheckDigitOf(code[..|code| - 1])
  }

  /** Appending the check digit to a body gives a valid code that starts
      with the body. */
  lemma AppendCheckDigit(b: string)
    requires IsDigits(b)
    ensures var r := b + NatToString(CheckDigitOf(b));
      && |r| == |b| + 1 && IsDigits(r) && r[..|b|] == b && HasValidCheckDigit(r)
  {
    var cd := CheckDigitOf(b);
    assert NatToString(cd) == [DigitChar(cd)];
    var r := b + [DigitChar(cd)];
    assert r[..|b|] == b;
    ConcatDigits(b, [DigitChar(cd)]);
  }

  /** The characters of `s` last to first, as `s.split('').reverse()`. */
  function Reverse(s: string): (r: string)
    ensures |r| == |s|
    ensures forall i :: 0 <= i < |s| ==> r[i] == s[|s| - 1 - i]
  {
    if s == [] then [] else [s[|s| - 1]] + Reverse(s[..|s| - 1])
  }

  /** Reading the reversed code from the left is reading the code from the
      right. */
  lemma {:induction false} LeftSumOfReverse(s: string, tripled: bool)
    requires IsDigits(s)
    ensures IsDigits(Reverse(s))
    ensures LeftSumFrom(Reverse(s), tripled) == RightSumFrom(s, tripled)
  {
    if s != [] {
      var r := Reverse(s);
      assert r[1..] == Reverse(s[..|s| - 1]);
      LeftSumOfReverse(s[..|s| - 1], !tripled);
    }
  }

  /** Appending a digit to a left-read sum adds it with the weight of its
      index: tripled exactly when the index has the parity of the start. */
  lemma {:induction false} LeftSumSnoc(s: string, c: char, tripled: bool)
    requires IsDigits(s) && IsDigit(c)
    ensures IsDigits(s + [c])
    ensures LeftSumFrom(s + [c], tripled)
      == LeftSumFrom(s, tripled) + Weighted(tripled == (|s| % 2 == 0), Digit(c))
  {
    ConcatDigits(s, [c]);
    if s != [] {
      assert (s + [c])[1..] == s[1..] + [c];
      LeftSumSnoc(s[1..], c, !tripled);
    }
  }

  /** Prepending a digit to a right-read sum adds it with the weight of its
      position from the right. */
  lemma {:induction false} RightSumCons(c: char, s: string, tripled: bool)
    requires IsDigits(s) && IsDigit(c)
    ensures IsDigits([c] + s)
    ensures RightSumFrom([c] + s, tripled)
      == RightSumFrom(s, tripled) + Weighted(tripled == (|s| % 2 == 0), Digit(c))
  {
    ConcatDigits([c], s);
    if s != [] {
      assert ([c] + s)[..|s|] == [c] + s[..|s| - 1];
      RightSumCons(c, s[..|s| - 1], !tripled);
    }
  }

  /** Left and right readings agree on a string of odd length: its first
      and last digits share a weight. */
  lemma {:induction false} LeftSumMatchesRight(s: string, tripled: bool)
    requires IsDigits(s) && |s| % 2 == 1
    ensures LeftSumFrom(s, tripled) == RightSumFrom(s, tripled)
  {
    if |s| > 1 {
      var mid := s[1..|s| - 1];
      assert s[1..] == mid + [s[|s| - 1]];
      assert s[..|s| - 1] == [s[0]] + mid;
      assert |mid| % 2 == 1;
      LeftSumMatchesRight(mid, !tripled);
      LeftSumSnoc(mid, s[|s| - 1], !tripled);
      RightSumCons(s[0], mid, !tripled);
    }
  }

  /** Left-to-right weighting from 3, as in `calculateSSCC`, gives the GS1
      sum on a 17-digit SSCC body (as on every body of odd length). */
  lemma SsccBodyLeftWeighting(s: string)
    requires IsDigits(s) && |s| == 17
    ensures LeftSumFrom(s, true) == RightSum(s)
  {
    LeftSumMatchesRight(s, true);
  }

  /** For an even length it does not: on "10" the left-indexed rule gives
      check digit 7, the GS1 rule 9. */
  lemma EvenLengthLeftWeightingDiffers()
    ensures IsDigits("10")
    ensures CompletingDigit(LeftSumFrom("10", true)) == 7
    ensures CheckDigitOf("10") == 9
  {
    assert "10"[1..] == "0" && "0"[1..] == "";
    assert LeftSumFrom("10", true) == 3;
    assert "10"[..1] == "1" && "1"[..0] == "";
    assert RightSumFrom("1", false) == 1;
    assert RightSum("10") == 1;
  }

  /** src/App.tsx `calculateCheckDigit`: walks the reversed code, weighting
      even indices by 3, then subtracts the sum from the next multiple of
      ten (`Math.ceil(sum / 10) * 10`). */
  method CalculateCheckDigit(code: string) returns (r: int)
    requires IsDigits(code)
    ensures 0 <= r <= 9
    ensures r == CheckDigitOf(code)
  {
    var sum := 0;
    var reversed := Reverse(code);
    LeftSumOfReverse(code, true);
    var i := 0;
    while i < |reversed|
      invariant 0 <= i <= |reversed|
      invariant sum == LeftSumFrom(reversed[..i], true)
    {
      assert reversed[..i + 1] == reversed[..i] + [reversed[i]];
      LeftSumSnoc(reversed[..i], reversed[i], true);
      var digit := Digit(reversed[i]);
      if i % 2 == 0 {
        sum := sum + digit * 3;
      } else {
        sum := sum + digit;
      }
      i := i + 1;
    }
    assert reversed[..i] == reversed;
    // Math.ceil(sum / 10) for a non-negative sum
    var nextTen := ((sum + 9) / 10) * 10;
    r := nextTen - sum;
    CompletingDigitUnique(sum, r);
  }
}
