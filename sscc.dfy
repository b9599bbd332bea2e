/** The two SSCC (AI 00) builders of the application, which do not agree:
    - the preview `currentSSCC` of src/App.tsx puts the extension digit 0
      first and pads the serial to `16 - |prefix|` digits;
    - `calculateSSCC` of src/pages/PalletCompositionPage.tsx, whose result
      is printed on the label and saved, has no extension digit and pads
      the serial to `17 - |prefix|` digits, with a left-indexed check-digit
      loop. */
module Sscc {
  import opened Strings
  import opened CheckDigit

  /** The 17-digit body of the preview: extension digit, prefix, serial. */
  function PreviewBody(prefix: string, serial: nat): string {
    "0" + prefix + PadStart(NatToString(serial), 16 - |prefix|, '0')
  }

  /** src/App.tsx `currentSSCC` (the "next SSCC" shown on the dashboard);
      its check digit is `calculateCheckDigit`, which method
      CalculateCheckDigit proves equal to CheckDigitOf. */
  function CurrentSscc(prefix: string, serial: nat): (r: string)
    requires IsDigits(prefix)
    ensures prefix == [] <==> r == "Manca Prefisso"
    ensures prefix != [] ==> |r| > 0 && IsDigits(r) && r[0] == '0'
  {
    if prefix == [] then "Manca Prefisso"
    else
      var base := PreviewBody(prefix, serial);
      assert IsDigits(base);
      base + NatToString(CheckDigitOf(base))
  }

  /** The preview body is '0', the prefix, then the serial zero-padded to
      `16 - |prefix|` digits, which reads back as the serial. */
  lemma PreviewBodyShape(prefix: string, serial: nat)
    requires IsDigits(prefix) && |prefix| < 16
    requires serial < Pow10(16 - |prefix|)
    ensures var b := PreviewBody(prefix, serial);
      && |b| == 17 && IsDigits(b) && b[0] == '0'
      && b[1..1 + |prefix|] == prefix
      && IsDigits(b[1 + |prefix|..]) && DigitsValue(b[1 + |prefix|..]) == serial
  {
    var padded := PadStart(NatToString(serial), 16 - |prefix|, '0');
    assert |padded| == 16 - |prefix| by {
      NatToStringLength(serial, 16 - |prefix|);
    }
    assert IsDigits(padded) && DigitsValue(padded) == serial by {
      PaddedValue(serial, 16 - |prefix|);
    }
    var b := "0" + prefix + padded;
    assert b == PreviewBody(prefix, serial);
    assert IsDigits(b) by {
      ConsDigit('0', prefix);
      ConcatDigits("0" + prefix, padded);
    }
    assert b[1 + |prefix|..] == padded;
    assert b[1..1 + |prefix|] == prefix;
  }

  /** With a prefix of 1 to 15 digits and a serial that fits in the
      remaining `16 - |prefix|` digits, the preview is an 18-digit code:
      '0', the prefix, the zero-padded serial (which reads back as the
      serial), and a valid GS1 check digit. */
  lemma CurrentSsccShape(prefix: string, serial: nat)
    requires IsDigits(prefix) && 1 <= |prefix| < 16
    requires serial < Pow10(16 - |prefix|)
    ensures var r := CurrentSscc(prefix, serial);
      && |r| == 18 && IsDigits(r)
      && r[0] == '0'
      && r[1..1 + |prefix|] == prefix
      && IsDigits(r[1 + |prefix|..17]) && DigitsValue(r[1 + |prefix|..17]) == serial
      && HasValidCheckDigit(r)
  {
    var b := PreviewBody(prefix, serial);
    PreviewBodyShape(prefix, serial);
    var r := CurrentSscc(prefix, serial);
    assert r == b + NatToString(CheckDigitOf(b));
    CheckedBodyFields(b, r, 1, prefix, serial);
    assert r[0] == r[..17][0];
  }

  /** Appending the check digit to a 17-digit body that holds `field` at
      `offset` and then the digits of `serial` gives a valid 18-digit code
      with the same two fields. */
  lemma CheckedBodyFields(b: string, r: string, offset: nat, field: string, serial: nat)
    requires |b| == 17 && IsDigits(b) && offset + |field| <= 17
    requires b[offset..offset + |field|] == field
    requires IsDigits(b[offset + |field|..]) && DigitsValue(b[offset + |field|..]) == serial
    requires r == b + NatToString(CheckDigitOf(b))
    ensures |r| == 18 && IsDigits(r) && r[..17] == b && HasValidCheckDigit(r)
    ensures r[offset..offset + |field|] == field
    ensures IsDigits(r[offset + |field|..17]) && DigitsValue(r[offset + |field|..17]) == serial
  {
    AppendCheckDigit(b);
    SliceOfExtension(r, b, offset, offset + |field|);
    SliceOfExtension(r, b, offset + |field|, 17);
  }

  /** A slice inside the first `|b|` characters of `r`, when `r` starts
      with `b`, is the same slice of `b`. */
  lemma SliceOfExtension(r: string, b: string, i: nat, j: nat)
    requires |b| <= |r| && r[..|b|] == b && i <= j <= |b|
    ensures r[i..j] == b[i..j]
  {
    assert forall k :: i <= k < j ==> r[k] == r[..|b|][k];
  }

  /** The body of `calculateSSCC`: prefix then the serial padded to 17. */
  function PrintedBody(prefix: string, serial: nat): string {
    prefix + PadStart(NatToString(serial), 17 - |prefix|, '0')
  }

  /** What `calculateSSCC` returns: the body, then the digit computed from
      the left-indexed weighted sum. */
  function PrintedSscc(prefix: string, serial: nat): string
    requires IsDigits(prefix)
  {
    var raw := PrintedBody(prefix, serial);
    assert IsDigits(raw);
    raw + NatToString(CompletingDigit(LeftSumFrom(raw, true)))
  }

  /** src/pages/PalletCompositionPage.tsx `calculateSSCC`. */
  method CalculateSscc(prefix: string, serial: nat) returns (r: string)
    requires IsDigits(prefix)
    ensures r == PrintedSscc(prefix, serial)
  {
    var serialStr := PadStart(NatToString(serial), 17 - |prefix|, '0');
    var raw := prefix + serialStr;
    var sum := 0;
    var i := 0;
    while i < |raw|
      invariant 0 <= i <= |raw|
      invariant sum == LeftSumFrom(raw[..i], true)
    {
      assert raw[..i + 1] == raw[..i] + [raw[i]];
      LeftSumSnoc(raw[..i], raw[i], true);
      var digit := Digit(raw[i]);
      sum := sum + if i % 2 == 0 then digit * 3 else digit;
      i := i + 1;
    }
    assert raw[..i] == raw;
    var checkDigit := (10 - (sum % 10)) % 10;
    r := raw + NatToString(checkDigit);
  }

  /** The printed body is the prefix, then the serial zero-padded to
      `17 - |prefix|` digits, which reads back as the serial. */
  lemma PrintedBodyShape(prefix: string, serial: nat)
    requires IsDigits(prefix) && |prefix| < 17
    requires serial < Pow10(17 - |prefix|)
    ensures var b := PrintedBody(prefix, serial);
      && |b| == 17 && IsDigits(b)
      && b[..|prefix|] == prefix
      && IsDigits(b[|prefix|..]) && DigitsValue(b[|prefix|..]) == serial
  {
    var padded := PadStart(NatToString(serial), 17 - |prefix|, '0');
    assert |padded| == 17 - |prefix| by {
      NatToStringLength(serial, 17 - |prefix|);
    }
    assert IsDigits(padded) && DigitsValue(padded) == serial by {
      PaddedValue(serial, 17 - |prefix|);
    }
    var b := prefix + padded;
    assert b == PrintedBody(prefix, serial);
    assert IsDigits(b) by {
      ConcatDigits(prefix, padded);
    }
    assert b[|prefix|..] == padded;
    assert b[..|prefix|] == prefix;
  }

  /** With a prefix of at most 16 digits and a serial that fits in
      `17 - |prefix|` digits, the printed SSCC has 18 digits: the prefix,
      the zero-padded serial, and a check digit that is valid under the GS1
      rule, because the body has odd length. */
  lemma PrintedSsccShape(prefix: string, serial: nat)
    requires IsDigits(prefix) && |prefix| < 17
    requires serial < Pow10(17 - |prefix|)
    ensures var r := PrintedSscc(prefix, serial);
      && |r| == 18 && IsDigits(r)
      && r[..|prefix|] == prefix
      && IsDigits(r[|prefix|..17]) && DigitsValue(r[|prefix|..17]) == serial
      && HasValidCheckDigit(r)
  {
    var b := PrintedBody(prefix, serial);
    PrintedBodyShape(prefix, serial);
    SsccBodyLeftWeighting(b);
    var r := PrintedSscc(prefix, serial);
    assert r == b + NatToString(CheckDigitOf(b));
    assert b[0..|prefix|] == b[..|prefix|];
    CheckedBodyFields(b, r, 0, prefix, serial);
    assert r[..|prefix|] == r[0..|prefix|];
  }

  /** Distinct serials that fit the field give distinct printed SSCCs, so
      advancing the serial after each new pallet never repeats a code. */
  lemma PrintedSsccInjectiveInSerial(prefix: string, s1: nat, s2: nat)
    requires IsDigits(prefix) && |prefix| < 17
    requires s1 < Pow10(17 - |prefix|) && s2 < Pow10(17 - |prefix|)
    ensures PrintedSscc(prefix, s1) == PrintedSscc(prefix, s2) <==> s1 == s2
  {
    PrintedSsccShape(prefix, s1);
    PrintedSsccShape(prefix, s2);
  }

  /** The preview equals what `calculateSSCC` prints for the prefix with a
      leading '0': the printed builder takes the first prefix digit as the
      extension digit. */
  lemma PreviewIsPrintedWithExtension(prefix: string, serial: nat)
    requires IsDigits(prefix) && 1 <= |prefix| < 16
    requires serial < Pow10(16 - |prefix|)
    ensures IsDigits("0" + prefix)
    ensures CurrentSscc(prefix, serial) == PrintedSscc("0" + prefix, serial)
  {
    var base := PreviewBody(prefix, serial);
    assert |base| == 17 && IsDigits(base) by {
      PreviewBodyShape(prefix, serial);
    }
    SsccBodyLeftWeighting(base);
    assert IsDigits("0" + prefix) by {
      ConsDigit('0', prefix);
    }
    assert base == PrintedBody("0" + prefix, serial);
  }

  /** Hence the preview and the printed SSCC differ for every prefix that
      does not start with 0 (every serial). */
  lemma PreviewDiffersFromPrinted(prefix: string, serial: nat)
    requires IsDigits(prefix) && prefix != [] && prefix[0] != '0'
    ensures CurrentSscc(prefix, serial) != PrintedSscc(prefix, serial)
  {
    assert PrintedSscc(prefix, serial)[0] == prefix[0];
  }
}
