/** GTIN handling of the application: the strict validator
    `normalizeToGtin14` with its check-digit `reduce` (src/pages/ArticlesPage.tsx)
    and the lossy `normalizeGtin` used when the label payload is built
    (src/pages/PalletCompositionPage.tsx). */
module Gtin {
  import opened Base
  import opened Strings
  import opened CheckDigit

  /** The `reduce` of `computeGs1CheckDigit`: walks the reversed digits and
      adds each, times 3 on the even indices (`tripled` says whether the
      current index is even), to the accumulator. */
  function ReduceWeighted(ds: string, tripled: bool, acc: nat): nat
    requires IsDigits(ds)
  {
    if ds == [] then acc
    else ReduceWeighted(ds[1..], !tripled, acc + Weighted(tripled, Digit(ds[0])))
  }

  /** The fold adds the left-read weighted sum to its seed. */
  lemma {:induction false} ReduceWeightedSum(ds: string, tripled: bool, acc: nat)
    requires IsDigits(ds)
    ensures ReduceWeighted(ds, tripled, acc) == acc + LeftSumFrom(ds, tripled)
  {
    if ds != [] {
      ReduceWeightedSum(ds[1..], !tripled, acc + Weighted(tripled, Digit(ds[0])));
    }
  }

  /** src/pages/ArticlesPage.tsx `computeGs1CheckDigit`: the same digit as
      `calculateCheckDigit` of src/App.tsx (method CalculateCheckDigit),
      namely the GS1 check digit of the body. */
  function ComputeGs1CheckDigit(body: string): (d: nat)
    requires IsDigits(body)
    ensures d < 10
    ensures d == CheckDigitOf(body)
  {
    var reversed := Reverse(body);
    LeftSumOfReverse(body, true);
    ReduceWeightedSum(reversed, true, 0);
    CompletingDigit(ReduceWeighted(reversed, true, 0))
  }

  /** The digit counts `normalizeToGtin14` accepts: GTIN-8, -12, -13, -14. */
  predicate GtinLength(n: nat) {
    n == 8 || n == 12 || n == 13 || n == 14
  }

  /** src/pages/ArticlesPage.tsx `normalizeToGtin14`: strips non-digits,
      checks the length and the check digit, and pads to 14 digits;
      `None` stands for `null`. */
  function NormalizeToGtin14(raw: string): Option<string> {
    var digits := KeepDigits(raw);
    if !GtinLength(|digits|) then None
    else
      var body := digits[..|digits| - 1];
      var check := Digit(digits[|digits| - 1]);
      if check != ComputeGs1CheckDigit(body) then None
      else Some(PadStart(digits, 14, '0'))
  }

  /** Non-digit characters are ignored: dropping one from the input
      changes neither normalizer's result. */
  lemma NonDigitIgnored(a: string, c: char, b: string)
    requires !IsDigit(c)
    ensures NormalizeToGtin14(a + [c] + b) == NormalizeToGtin14(a + b)
    ensures NormalizeGtin(a + [c] + b) == NormalizeGtin(a + b)
  {
    KeepDigitsDrop(a, c, b);
  }

  /** Leading zeros add nothing to the GS1 weighted sum. */
  lemma {:induction false} RightSumLeadingZeros(k: nat, s: string)
    requires IsDigits(s)
    ensures IsDigits(Repeat('0', k) + s)
    ensures RightSum(Repeat('0', k) + s) == RightSum(s)
  {
    if k > 0 {
      RightSumLeadingZeros(k - 1, s);
      var t := Repeat('0', k - 1) + s;
      assert Repeat('0', k) == ['0'] + Repeat('0', k - 1);
      assert Repeat('0', k) + s == ['0'] + t;
      RightSumCons('0', t, true);
      assert Weighted(|t| % 2 == 0, Digit('0')) == 0;
    } else {
      assert Repeat('0', k) + s == s;
    }
  }

  /** Zero-padding a code with a valid check digit keeps it valid. */
  lemma PaddedCodeValid(code: string, width: nat)
    requires HasValidCheckDigit(code)
    ensures HasValidCheckDigit(PadStart(code, width, '0'))
  {
    var p := PadStart(code, width, '0');
    var k := |p| - |code|;
    var body := code[..|code| - 1];
    RightSumLeadingZeros(k, body);
    LeadingZerosValue(k, code);
    assert p == Repeat('0', k) + code;
    assert p[..|p| - 1] == Repeat('0', k) + body;
    assert p[|p| - 1] == code[|code| - 1];
  }

  /** The validator accepts exactly the inputs whose digits form a GTIN of
      8, 12, 13 or 14 digits with a valid check digit, ignoring every other
      character; what it returns is those digits left-padded with zeros to a
      valid 14-digit GTIN. */
  lemma NormalizeToGtin14Spec(raw: string)
    ensures var digits := KeepDigits(raw);
      NormalizeToGtin14(raw).Some? <==> GtinLength(|digits|) && HasValidCheckDigit(digits)
    ensures var r := NormalizeToGtin14(raw);
      r.Some? ==>
        && r.value == PadStart(KeepDigits(raw), 14, '0')
        && |r.value| == 14 && IsDigits(r.value) && HasValidCheckDigit(r.value)
  {
    var digits := KeepDigits(raw);
    if GtinLength(|digits|) && HasValidCheckDigit(digits) {
      PaddedCodeValid(digits, 14);
    }
  }

  /** A 14-digit valid GTIN is its own normal form, so normalizing a
      returned GTIN-14 again returns it unchanged. */
  lemma NormalizeToGtin14OfGtin14(g: string)
    requires |g| == 14 && HasValidCheckDigit(g)
    ensures NormalizeToGtin14(g) == Some(g)
  {
    NormalizeToGtin14Spec(g);
  }

  lemma NormalizeToGtin14Idempotent(raw: string)
    requires NormalizeToGtin14(raw).Some?
    ensures NormalizeToGtin14(NormalizeToGtin14(raw).value) == NormalizeToGtin14(raw)
  {
    NormalizeToGtin14Spec(raw);
    NormalizeToGtin14OfGtin14(NormalizeToGtin14(raw).value);
  }

  /** A GTIN-13 is accepted as the GTIN-14 with a leading zero. */
  lemma Gtin13RoundTrip(g: string)
    requires |g| == 13 && HasValidCheckDigit(g)
    ensures NormalizeToGtin14(g) == Some("0" + g)
  {
    NormalizeToGtin14Spec(g);
    assert Repeat('0', 1) == "0";
    assert PadStart(g, 14, '0') == "0" + g;
  }

  /** Changing the check digit of a valid code makes the validator
      reject it. */
  lemma WrongCheckDigitRejected(g: string, c: char)
    requires GtinLength(|g|) && HasValidCheckDigit(g)
    requires IsDigit(c) && c != g[|g| - 1]
    ensures NormalizeToGtin14(g[..|g| - 1] + [c]).None?
  {
    var h := g[..|g| - 1] + [c];
    ConcatDigits(g[..|g| - 1], [c]);
    assert h[..|h| - 1] == g[..|g| - 1];
    assert Digit(c) != Digit(g[|g| - 1]);
    NormalizeToGtin14Spec(h);
  }

  /** src/pages/PalletCompositionPage.tsx `normalizeGtin`: keeps the digits,
      pads them to 14 with zeros and keeps the last 14, so a longer input
      loses its leading digits. */
  function NormalizeGtin(gtin: string): (r: string)
    ensures |r| == 14 && IsDigits(r)
    ensures var d := KeepDigits(gtin);
      if |d| <= 14 then r == Repeat('0', 14 - |d|) + d else r == d[|d| - 14..]
  {
    var padded := PadStart(KeepDigits(gtin), 14, '0');
    padded[|padded| - 14..]
  }

  /** On a GTIN saved through the validator, the payload normalization is
      the identity. */
  lemma NormalizeGtinOfValidated(raw: string)
    requires NormalizeToGtin14(raw).Some?
    ensures NormalizeGtin(NormalizeToGtin14(raw).value) == NormalizeToGtin14(raw).value
  {
    NormalizeToGtin14Spec(raw);
  }
}
