/** The DDT number suggested when the transport-document view opens
    (src/App.tsx): one more than the largest number among the documents
    dated in the current year, zero-padded to three digits and followed by
    `/` and the year. */
module DdtNumber {
  import opened Base
  import opened Strings
  import opened Records

  /** `ddts.filter(d => d.date.startsWith(year))`. */
  function SameYear(ddts: seq<MasterDdt>, year: string): seq<MasterDdt> {
    if ddts == [] then []
    else
      var last := ddts[|ddts| - 1];
      SameYear(ddts[..|ddts| - 1], year) + (if StartsWith(last.date, year) then [last] else [])
  }

  /** The filter keeps exactly the documents dated in the year. */
  lemma {:induction false} SameYearMembers(ddts: seq<MasterDdt>, year: string)
    ensures forall d :: d in SameYear(ddts, year) <==> d in ddts && StartsWith(d.date, year)
  {
    if ddts != [] {
      var init := ddts[..|ddts| - 1];
      SameYearMembers(init, year);
      assert forall d :: d in ddts <==> d in init || d == ddts[|ddts| - 1];
    }
  }

  /** `parseInt(d.number.split('/')[0])`; `None` is `NaN`. */
  function NumberOf(d: MasterDdt): Option<int> {
    ParseInt(TakeUntil(d.number, '/'))
  }

  /** One `reduce` step: `num > max ? num : max` (a `NaN` never wins). */
  function MaxStep(max: nat, d: MasterDdt): nat {
    var num := NumberOf(d);
    if num.Some? && num.value > max then num.value else max
  }

  /** The `reduce` from 0, left to right. */
  function MaxNumber(ds: seq<MasterDdt>): nat {
    if ds == [] then 0 else MaxStep(MaxNumber(ds[..|ds| - 1]), ds[|ds| - 1])
  }

  /** `maxNum + 1` for `year`. */
  function NextNumber(ddts: seq<MasterDdt>, year: nat): nat {
    MaxNumber(SameYear(ddts, NatToString(year))) + 1
  }

  /** The suggestion for `year`. */
  function SuggestDdtNumber(ddts: seq<MasterDdt>, year: nat): string {
    PadStart(NatToString(NextNumber(ddts, year)), 3, '0') + "/" + NatToString(year)
  }

  /** The reduce yields the largest number read, or 0 when no document
      yields a positive one. */
  lemma {:induction false} MaxNumberIsMax(ds: seq<MasterDdt>)
    ensures forall d :: d in ds && NumberOf(d).Some? ==> NumberOf(d).value <= MaxNumber(ds)
    ensures MaxNumber(ds) == 0 || exists d :: d in ds && NumberOf(d) == Some(MaxNumber(ds) as int)
  {
    if ds != [] {
      var init := ds[..|ds| - 1];
      MaxNumberIsMax(init);
      assert forall d :: d in ds <==> d in init || d == ds[|ds| - 1];
    }
  }

  /** Prepending a document takes the larger of its number and the rest's
      maximum: the order of the documents does not matter. */
  lemma {:induction false} MaxNumberCons(d: MasterDdt, ds: seq<MasterDdt>)
    ensures MaxNumber([d] + ds) == MaxStep(MaxNumber(ds), d)
  {
    if ds == [] {
      assert ([d] + ds)[..0] == [];
    } else {
      var all := [d] + ds;
      assert all[..|all| - 1] == [d] + ds[..|ds| - 1];
      MaxNumberCons(d, ds[..|ds| - 1]);
    }
  }

  lemma {:induction false} SameYearCons(d: MasterDdt, ds: seq<MasterDdt>, year: string)
    ensures SameYear([d] + ds, year) == (if StartsWith(d.date, year) then [d] else []) + SameYear(ds, year)
  {
    if ds == [] {
      assert ([d] + ds)[..0] == [];
    } else {
      var all := [d] + ds;
      assert all[..|all| - 1] == [d] + ds[..|ds| - 1];
      SameYearCons(d, ds[..|ds| - 1], year);
    }
  }

  /** `s.split(c)[0]` of `p + c + rest` is `p` when `p` has no `c`. */
  lemma {:induction false} TakeUntilSeparator(p: string, c: char, rest: string)
    requires c !in p
    ensures TakeUntil(p + [c] + rest, c) == p
  {
    if p != [] {
      assert p[0] in p;
      assert (p + [c] + rest)[1..] == p[1..] + [c] + rest;
      TakeUntilSeparator(p[1..], c, rest);
    }
  }

  /** The suggestion is a numeric part of at least three digits, a `/` and
      the year; read back the way the reduce reads it, the numeric part is
      one more than the largest same-year number. */
  lemma SuggestionSpec(ddts: seq<MasterDdt>, year: nat)
    ensures SuggestDdtNumber(ddts, year) == TakeUntil(SuggestDdtNumber(ddts, year), '/') + "/" + NatToString(year)
    ensures |TakeUntil(SuggestDdtNumber(ddts, year), '/')| >= 3
    ensures IsDigits(TakeUntil(SuggestDdtNumber(ddts, year), '/'))
    ensures ParseInt(TakeUntil(SuggestDdtNumber(ddts, year), '/')) == Some(NextNumber(ddts, year))
  {
    var yearText := NatToString(year);
    var m := MaxNumber(SameYear(ddts, yearText));
    var p := PadStart(NatToString(m + 1), 3, '0');
    assert IsDigits(p) && DigitsValue(p) == m + 1 by {
      PaddedValue(m + 1, 3);
    }
    assert TakeUntil(SuggestDdtNumber(ddts, year), '/') == p by {
      DigitsLackNonDigit(p, '/');
      TakeUntilSeparator(p, '/', yearText);
    }
    ParseIntDigits(p);
  }

  /** A number written `0x1F` is read as hexadecimal 31, so a lone
      same-year document numbered "0x1F/<year>" makes the next number 32. */
  lemma HexNumberRead(d: MasterDdt, year: nat)
    requires d.number == "0x1F/" + NatToString(year)
    requires StartsWith(d.date, NatToString(year))
    ensures NumberOf(d) == Some(31)
    ensures NextNumber([d], year) == 32
  {
    HexNumberOf(d, year);
    LoneDocumentNext(d, year, 31);
  }

  lemma HexNumberOf(d: MasterDdt, year: nat)
    requires d.number == "0x1F/" + NatToString(year)
    ensures NumberOf(d) == Some(31)
  {
    assert "0x1F" + ['/'] + NatToString(year) == d.number;
    TakeUntilSeparator("0x1F", '/', NatToString(year));
    ParseIntHexExample();
  }

  /** With one same-year document, numbered n, the next number is n + 1. */
  lemma LoneDocumentNext(d: MasterDdt, year: nat, n: nat)
    requires StartsWith(d.date, NatToString(year)) && NumberOf(d) == Some(n)
    ensures NextNumber([d], year) == n + 1
  {
    var ys := NatToString(year);
    assert [d][..0] == [];
    assert SameYear([d], ys) == [d];
    assert MaxNumber([d]) == MaxStep(MaxNumber([]), d);
  }

  /** Every same-year document's number is below the suggested one. */
  lemma SuggestionExceeds(ddts: seq<MasterDdt>, year: nat, d: MasterDdt)
    requires d in ddts && StartsWith(d.date, NatToString(year)) && NumberOf(d).Some?
    ensures NumberOf(d).value < NextNumber(ddts, year)
  {
    SameYearMembers(ddts, NatToString(year));
    MaxNumberIsMax(SameYear(ddts, NatToString(year)));
  }

  /** Once a document numbered with the suggestion and dated in that year
      is prepended, as creating it does, the next number is one higher. */
  lemma NextSuggestion(ddts: seq<MasterDdt>, year: nat, d: MasterDdt)
    requires d.number == SuggestDdtNumber(ddts, year)
    requires StartsWith(d.date, NatToString(year))
    ensures NextNumber([d] + ddts, year) == NextNumber(ddts, year) + 1
  {
    var yearText := NatToString(year);
    assert NumberOf(d) == Some(NextNumber(ddts, year)) by {
      SuggestionSpec(ddts, year);
    }
    assert SameYear([d] + ddts, yearText) == [d] + SameYear(ddts, yearText) by {
      SameYearCons(d, ddts, yearText);
    }
    MaxNumberCons(d, SameYear(ddts, yearText));
  }
}
