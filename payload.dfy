/** The GS1-128 element string of the pallet label, `buildGs1Payload` of
    src/pages/PalletCompositionPage.tsx, and the harvest-date formatter of
    src/App.tsx. The application identifiers used are those of section 3
    of the GS1 General Specifications: 00 (SSCC), 02 (GTIN of the contained
    trade items), 37 (count of trade items), 3102 (net weight in kg with
    two decimals), 10 (batch) and 7007 (harvest date). */
module Payload {
  import opened Base
  import opened Strings
  import opened Records
  import opened Weights
  import opened Gtin

  datatype Ai = Ai00 | Ai02 | Ai37 | Ai3102 | Ai10 | Ai7007

  /** The AI as printed before its data, in parentheses. */
  function AiLabel(ai: Ai): string {
    match ai
    case Ai00 => "(00)"
    case Ai02 => "(02)"
    case Ai37 => "(37)"
    case Ai3102 => "(3102)"
    case Ai10 => "(10)"
    case Ai7007 => "(7007)"
  }

  /** Position of an AI in the order the builder emits them. */
  function AiRank(ai: Ai): nat {
    match ai
    case Ai00 => 0
    case Ai02 => 1
    case Ai37 => 2
    case Ai3102 => 3
    case Ai10 => 4
    case Ai7007 => 5
  }

  /** One element string: an AI and its data. */
  datatype Element = Element(ai: Ai, data: string)

  /** What the builder returns. */
  datatype Gs1Payload = Gs1Payload(humanReadable: string, barcodeText: string, hasMixedContent: bool)

  /** The elements rendered one after the other, each as its AI in
      parentheses followed by its data. */
  function RenderAll(es: seq<Element>): string {
    if es == [] then []
    else RenderAll(es[..|es| - 1]) + AiLabel(es[|es| - 1].ai) + es[|es| - 1].data
  }

  /** `xs.filter(Boolean)` on strings: drops the empty ones, keeps order. */
  function NonEmpty(xs: seq<string>): (r: seq<string>)
    ensures forall x :: x in r <==> x in xs && x != []
  {
    Filter(xs, IsPresent)
  }

  /** JavaScript truthiness of a string: it is not empty. */
  function IsPresent(x: string): bool {
    x != []
  }

  /** `lines.map(line => line.articleCode)`. */
  function CodesOf(lines: seq<PalletLine>): seq<string> {
    seq(|lines|, i requires 0 <= i < |lines| => lines[i].articleCode)
  }

  /** `lines.map(line => line.batch.trim())`. */
  function BatchesOf(lines: seq<PalletLine>): seq<string> {
    seq(|lines|, i requires 0 <= i < |lines| => Trim(lines[i].batch))
  }

  /** `lines.map(line => line.harvestDate)`. */
  function DatesOf(lines: seq<PalletLine>): seq<string> {
    seq(|lines|, i requires 0 <= i < |lines| => lines[i].harvestDate)
  }

  /** `Array.from(new Set(xs.filter(Boolean)))`. */
  function UniqueValues(xs: seq<string>): seq<string> {
    Distinct(NonEmpty(xs))
  }

  /** `lines.reduce((acc, line) => acc + parseInt(line.count || '0', 10), 0)`. */
  function TotalColli(lines: seq<PalletLine>): nat {
    if lines == [] then 0 else TotalColli(lines[..|lines| - 1]) + lines[|lines| - 1].count
  }

  /** The article the (02) element describes: the one whose code is the
      first unique code, when that article has a GTIN. */
  function GtinArticle(lines: seq<PalletLine>, articles: seq<MasterArticle>): Option<MasterArticle> {
    var codes := UniqueValues(CodesOf(lines));
    if |codes| == 1 then
      var first := FindArticle(articles, codes[0]);
      if first.Some? && first.value.gtin != [] then first else None
    else None
  }

  /** The data of each element the builder may emit, in a fixed order;
      `None` for an element left out. */
  datatype ElementString = ElementString(
    sscc: string,
    gtin: Option<string>,
    count: Option<string>,
    netWeight: Option<string>,
    batch: Option<string>,
    harvestDate: Option<string>)

  /** The element for an optional datum. */
  function Opt(ai: Ai, o: Option<string>): seq<Element> {
    if o.Some? then [Element(ai, o.value)] else []
  }

  /** The elements, in the order they are emitted. */
  function Elements(p: ElementString): seq<Element> {
    [Element(Ai00, p.sscc)] + Opt(Ai02, p.gtin) + Opt(Ai37, p.count) + Opt(Ai3102, p.netWeight)
    + Opt(Ai10, p.batch) + Opt(Ai7007, p.harvestDate)
  }

  /** One `text += (ai)data` step, skipped when the datum is absent. */
  function AppendElement(text: string, ai: Ai, o: Option<string>): string {
    if o.Some? then text + AiLabel(ai) + o.value else text
  }

  /** The text as the builder accumulates it. */
  function Text(p: ElementString): string {
    var withSscc := AiLabel(Ai00) + p.sscc;
    var withGtin := AppendElement(AppendElement(withSscc, Ai02, p.gtin), Ai37, p.count);
    var withWeight := AppendElement(withGtin, Ai3102, p.netWeight);
    AppendElement(AppendElement(withWeight, Ai10, p.batch), Ai7007, p.harvestDate)
  }

  /** The (02) datum: the GTIN of the one article, as 14 digits. */
  function GtinField(lines: seq<PalletLine>, articles: seq<MasterArticle>): Option<string> {
    var article := GtinArticle(lines, articles);
    if article.Some? then Some(NormalizeGtin(article.value.gtin)) else None
  }

  /** The (37) datum: the total count, given only with a GTIN. */
  function CountField(lines: seq<PalletLine>, articles: seq<MasterArticle>): Option<string> {
    if GtinArticle(lines, articles).Some? && TotalColli(lines) > 0 then Some(NatToString(TotalColli(lines))) else None
  }

  /** The (3102) datum: the net total zero-padded to 6 digits. */
  function WeightField(lines: seq<PalletLine>): Option<string> {
    var net := Totals(lines).net;
    if net > 0 then Some(PadStart(NatToString(net), 6, '0')) else None
  }

  /** The (10) datum: the one batch. */
  function BatchField(lines: seq<PalletLine>): Option<string> {
    var batches := UniqueValues(BatchesOf(lines));
    if |batches| == 1 then Some(batches[0]) else None
  }

  /** The (7007) datum: the one harvest date without its dashes, when that
      leaves 8 characters. */
  function DateField(lines: seq<PalletLine>): Option<string> {
    var dates := UniqueValues(DatesOf(lines));
    if |dates| == 1 && |RemoveAll(dates[0], '-')| == 8 then Some(RemoveAll(dates[0], '-')) else None
  }

  /** What `buildGs1Payload` puts in each element, from the lines. */
  function PayloadFields(sscc: string, lines: seq<PalletLine>, articles: seq<MasterArticle>): ElementString {
    ElementString(sscc, GtinField(lines, articles), CountField(lines, articles), WeightField(lines),
      BatchField(lines), DateField(lines))
  }

  /** The builder's text after the (02) and (37) step. */
  function WithGtin(text: string, lines: seq<PalletLine>, articles: seq<MasterArticle>): (r: string)
    ensures r == AppendElement(AppendElement(text, Ai02, GtinField(lines, articles)), Ai37, CountField(lines, articles))
  {
    var gtin := GtinField(lines, articles);
    if gtin.Some? then WithCount(text + "(02)" + gtin.value, lines, articles)
    else
      assert CountField(lines, articles) == None;
      text
  }

  /** The (37) step inside the (02) one: the total colli when positive. */
  function WithCount(text: string, lines: seq<PalletLine>, articles: seq<MasterArticle>): (r: string)
    requires GtinArticle(lines, articles).Some?
    ensures r == AppendElement(text, Ai37, CountField(lines, articles))
  {
    var totalColli := TotalColli(lines);
    if totalColli > 0 then text + "(37)" + NatToString(totalColli) else text
  }

  /** The builder's text after the (3102) step. */
  function WithWeight(text: string, lines: seq<PalletLine>): (r: string)
    ensures r == AppendElement(text, Ai3102, WeightField(lines))
  {
    var net := Totals(lines).net;
    if net > 0 then text + "(3102)" + PadStart(NatToString(net), 6, '0') else text
  }

  /** The builder's text after the (10) step. */
  function WithBatch(text: string, lines: seq<PalletLine>): (r: string)
    ensures r == AppendElement(text, Ai10, BatchField(lines))
  {
    var batch := BatchField(lines);
    if batch.Some? then text + "(10)" + batch.value else text
  }

  /** The builder's text after the (7007) step. */
  function WithDate(text: string, lines: seq<PalletLine>): (r: string)
    ensures r == AppendElement(text, Ai7007, DateField(lines))
  {
    var dates := UniqueValues(DatesOf(lines));
    if |dates| == 1 && |RemoveAll(dates[0], '-')| == 8 then text + "(7007)" + RemoveAll(dates[0], '-') else text
  }

  /** The four steps together render the elements of PayloadFields. */
  lemma BuilderText(sscc: string, lines: seq<PalletLine>, articles: seq<MasterArticle>)
    ensures WithDate(WithBatch(WithWeight(WithGtin("(00)" + sscc, lines, articles), lines), lines), lines)
      == RenderAll(Elements(PayloadFields(sscc, lines, articles)))
  {
    TextRendersElements(PayloadFields(sscc, lines, articles));
  }

  /** `hasMixedContent`. */
  predicate MixedContent(lines: seq<PalletLine>) {
    |UniqueValues(CodesOf(lines))| > 1 || |UniqueValues(BatchesOf(lines))| > 1
  }

  /** src/pages/PalletCompositionPage.tsx `buildGs1Payload`: both strings
      start at `(00)` and the SSCC and grow by `+=`, one step per element;
      the result renders the elements of PayloadFields. */
  method BuildGs1Payload(sscc: string, lines: seq<PalletLine>, articles: seq<MasterArticle>)
    returns (p: Gs1Payload)
    ensures p.humanReadable == p.barcodeText
    ensures p.humanReadable == RenderAll(Elements(PayloadFields(sscc, lines, articles)))
    ensures p.hasMixedContent <==> MixedContent(lines)
  {
    var uniqueArticleCodes := UniqueValues(CodesOf(lines));
    var uniqueBatches := UniqueValues(BatchesOf(lines));
    var human := "(00)" + sscc;
    var barcode := "(00)" + sscc;
    human, barcode := AddGtinAndCount(human, barcode, lines, articles);
    human, barcode := AddWeight(human, barcode, lines);
    human, barcode := AddBatch(human, barcode, lines);
    human, barcode := AddHarvestDate(human, barcode, lines);
    BuilderText(sscc, lines, articles);
    p := Gs1Payload(human, barcode, |uniqueArticleCodes| > 1 || |uniqueBatches| > 1);
  }

  /** The (02) and (37) step: with one article code whose article has a
      GTIN, both strings get the GTIN as 14 digits and then, with at least
      one collo, the total count. */
  method AddGtinAndCount(human: string, barcode: string, lines: seq<PalletLine>, articles: seq<MasterArticle>)
    returns (h: string, b: string)
    ensures h == WithGtin(human, lines, articles) && b == WithGtin(barcode, lines, articles)
  {
    var uniqueArticleCodes := UniqueValues(CodesOf(lines));
    var firstArticle := if uniqueArticleCodes != [] then FindArticle(articles, uniqueArticleCodes[0]) else None;
    var totalColli := TotalColli(lines);
    assert GtinArticle(lines, articles)
      == if |uniqueArticleCodes| == 1 && firstArticle.Some? && firstArticle.value.gtin != [] then firstArticle else None;
    h, b := human, barcode;
    if |uniqueArticleCodes| == 1 && firstArticle.Some? && firstArticle.value.gtin != [] {
      var gtin14 := NormalizeGtin(firstArticle.value.gtin);
      h := h + "(02)" + gtin14;
      b := b + "(02)" + gtin14;
      if totalColli > 0 {
        h := h + "(37)" + NatToString(totalColli);
        b := b + "(37)" + NatToString(totalColli);
      }
    }
  }

  /** The (3102) step: a positive net, in hundredths, zero-padded to six
      digits. */
  method AddWeight(human: string, barcode: string, lines: seq<PalletLine>) returns (h: string, b: string)
    ensures h == WithWeight(human, lines) && b == WithWeight(barcode, lines)
  {
    var net := Totals(lines).net;
    h, b := human, barcode;
    if net > 0 {
      var weightAi3102 := PadStart(NatToString(net), 6, '0');
      h := h + "(3102)" + weightAi3102;
      b := b + "(3102)" + weightAi3102;
    }
  }

  /** The (10) step: the one trimmed batch, when there is exactly one. */
  method AddBatch(human: string, barcode: string, lines: seq<PalletLine>) returns (h: string, b: string)
    ensures h == WithBatch(human, lines) && b == WithBatch(barcode, lines)
  {
    var uniqueBatches := UniqueValues(BatchesOf(lines));
    h, b := human, barcode;
    if |uniqueBatches| == 1 {
      h := h + "(10)" + uniqueBatches[0];
      b := b + "(10)" + uniqueBatches[0];
    }
  }

  /** The (7007) step: the one harvest date without its dashes, when that
      leaves eight characters. */
  method AddHarvestDate(human: string, barcode: string, lines: seq<PalletLine>) returns (h: string, b: string)
    ensures h == WithDate(human, lines) && b == WithDate(barcode, lines)
  {
    var uniqueHarvestDates := UniqueValues(DatesOf(lines));
    h, b := human, barcode;
    if |uniqueHarvestDates| == 1 {
      var harvest := RemoveAll(uniqueHarvestDates[0], '-');
      if |harvest| == 8 {
        h := h + "(7007)" + harvest;
        b := b + "(7007)" + harvest;
      }
    }
  }

  /** Appending an element appends its label and data. */
  lemma RenderOpt(es: seq<Element>, ai: Ai, o: Option<string>)
    ensures AppendElement(RenderAll(es), ai, o) == RenderAll(es + Opt(ai, o))
  {
    if o.Some? {
      assert (es + Opt(ai, o))[..|es|] == es;
    } else {
      assert es + Opt(ai, o) == es;
    }
  }

  /** The accumulated text is the rendering of the elements. */
  lemma TextRendersElements(p: ElementString)
    ensures Text(p) == RenderAll(Elements(p))
  {
    var e0 := [Element(Ai00, p.sscc)];
    assert RenderAll(e0) == AiLabel(Ai00) + p.sscc by {
      assert e0[..0] == [];
    }
    var e1 := e0 + Opt(Ai02, p.gtin);
    RenderOpt(e0, Ai02, p.gtin);
    var e2 := e1 + Opt(Ai37, p.count);
    RenderOpt(e1, Ai37, p.count);
    var e3 := e2 + Opt(Ai3102, p.netWeight);
    RenderOpt(e2, Ai3102, p.netWeight);
    var e4 := e3 + Opt(Ai10, p.batch);
    RenderOpt(e3, Ai10, p.batch);
    RenderOpt(e4, Ai7007, p.harvestDate);
  }

  /** Exactly one distinct non-empty value, `v`. */
  predicate SingleValue(xs: seq<string>, v: string) {
    v != [] && v in xs && forall i :: 0 <= i < |xs| ==> xs[i] == [] || xs[i] == v
  }

  /** `new Set(xs.filter(Boolean))` holds the single value `v` exactly when
      `v` occurs and every other value is empty. */
  lemma UniqueValuesSingle(xs: seq<string>, v: string)
    ensures UniqueValues(xs) == [v] <==> SingleValue(xs, v)
  {
    var ne := NonEmpty(xs);
    var d := Distinct(ne);
    if d == [v] {
      forall i | 0 <= i < |xs| ensures xs[i] == [] || xs[i] == v {
        if xs[i] != [] {
          assert xs[i] in ne;
          assert xs[i] in d;
        }
      }
      assert v in d;
    }
    if SingleValue(xs, v) {
      assert v in ne && |ne| > 0;
      assert forall x :: x in d ==> x == v;
      assert d[0] in d;
      NoDupConstant(d, v);
      assert d == [v];
    }
  }

  /** Two non-empty values of `xs` differ. */
  predicate TwoDiffer(xs: seq<string>) {
    exists i, j :: 0 <= i < |xs| && 0 <= j < |xs| && xs[i] != [] && xs[j] != [] && xs[i] != xs[j]
  }

  /** More than one distinct non-empty value exactly when two non-empty
      values differ. */
  lemma UniqueValuesMany(xs: seq<string>)
    ensures |UniqueValues(xs)| > 1 <==> TwoDiffer(xs)
  {
    var ne := NonEmpty(xs);
    DistinctMany(ne);
    if |UniqueValues(xs)| > 1 {
      ManyDiffer(xs, ne);
    }
    if TwoDiffer(xs) {
      DifferMany(xs, ne);
    }
  }

  lemma ManyDiffer(xs: seq<string>, ne: seq<string>)
    requires ne == NonEmpty(xs)
    requires exists a, b :: 0 <= a < |ne| && 0 <= b < |ne| && ne[a] != ne[b]
    ensures TwoDiffer(xs)
  {
    var a, b :| 0 <= a < |ne| && 0 <= b < |ne| && ne[a] != ne[b];
    assert ne[a] in ne && ne[b] in ne;
    var i :| 0 <= i < |xs| && xs[i] == ne[a];
    var j :| 0 <= j < |xs| && xs[j] == ne[b];
    assert xs[i] != [] && xs[j] != [] && xs[i] != xs[j];
  }

  lemma DifferMany(xs: seq<string>, ne: seq<string>)
    requires ne == NonEmpty(xs)
    requires TwoDiffer(xs)
    ensures exists a, b :: 0 <= a < |ne| && 0 <= b < |ne| && ne[a] != ne[b]
  {
    var i, j :| 0 <= i < |xs| && 0 <= j < |xs| && xs[i] != [] && xs[j] != [] && xs[i] != xs[j];
    assert xs[i] in ne && xs[j] in ne;
    var a :| 0 <= a < |ne| && ne[a] == xs[i];
    var b :| 0 <= b < |ne| && ne[b] == xs[j];
  }

  /** AIs strictly increase in emission order. */
  predicate Ordered(es: seq<Element>) {
    forall i, j :: 0 <= i < j < |es| ==> AiRank(es[i].ai) < AiRank(es[j].ai)
  }

  /** (37) only ever directly follows (02). */
  predicate CountFollowsGtin(es: seq<Element>) {
    forall i :: 0 <= i < |es| && es[i].ai == Ai37 ==> i > 0 && es[i - 1].ai == Ai02
  }

  /** Every AI of `es` ranks in `[lo, hi)`. */
  predicate RanksWithin(es: seq<Element>, lo: nat, hi: nat) {
    forall i :: 0 <= i < |es| ==> lo <= AiRank(es[i].ai) < hi
  }

  lemma OrderedAppend(a: seq<Element>, b: seq<Element>, lo: nat, mid: nat, hi: nat)
    requires Ordered(a) && Ordered(b)
    requires lo <= mid <= hi
    requires RanksWithin(a, lo, mid) && RanksWithin(b, mid, hi)
    ensures Ordered(a + b) && RanksWithin(a + b, lo, hi)
  {
    var es := a + b;
    forall i, j | 0 <= i < j < |es| ensures AiRank(es[i].ai) < AiRank(es[j].ai) {
      if j < |a| {
        assert es[i] == a[i] && es[j] == a[j];
      } else if i >= |a| {
        assert es[i] == b[i - |a|] && es[j] == b[j - |a|];
      } else {
        assert es[i] == a[i] && es[j] == b[j - |a|];
      }
    }
    forall i | 0 <= i < |es| ensures lo <= AiRank(es[i].ai) < hi {
      if i < |a| { assert es[i] == a[i]; } else { assert es[i] == b[i - |a|]; }
    }
  }

  lemma OptOrdered(ai: Ai, o: Option<string>)
    ensures Ordered(Opt(ai, o)) && RanksWithin(Opt(ai, o), AiRank(ai), AiRank(ai) + 1)
  {
  }

  /** (37) needs (02): a count is only ever given with a GTIN. */
  predicate WellShaped(p: ElementString) {
    p.count.Some? ==> p.gtin.Some?
  }

  /** The elements of any element string come in AI order, one of each at
      most, starting with (00) and the SSCC; (37) only follows (02). */
  lemma ElementsOrdered(p: ElementString)
    requires WellShaped(p)
    ensures var es := Elements(p);
      es[0] == Element(Ai00, p.sscc) && Ordered(es) && CountFollowsGtin(es)
  {
    var head := [Element(Ai00, p.sscc)];
    var g := Opt(Ai02, p.gtin);
    var c := Opt(Ai37, p.count);
    var w := Opt(Ai3102, p.netWeight);
    var b := Opt(Ai10, p.batch);
    var d := Opt(Ai7007, p.harvestDate);
    OptOrdered(Ai00, Some(p.sscc));
    assert head == Opt(Ai00, Some(p.sscc));
    OptOrdered(Ai02, p.gtin);
    OptOrdered(Ai37, p.count);
    OptOrdered(Ai3102, p.netWeight);
    OptOrdered(Ai10, p.batch);
    OptOrdered(Ai7007, p.harvestDate);
    OrderedAppend(head, g, 0, 1, 2);
    OrderedAppend(head + g, c, 0, 2, 3);
    OrderedAppend(head + g + c, w, 0, 3, 4);
    OrderedAppend(head + g + c + w, b, 0, 4, 5);
    OrderedAppend(head + g + c + w + b, d, 0, 5, 6);
    CountAfterGtin(p);
  }

  lemma CountAfterGtin(p: ElementString)
    requires WellShaped(p)
    ensures CountFollowsGtin(Elements(p))
  {
    var front := [Element(Ai00, p.sscc)] + Opt(Ai02, p.gtin) + Opt(Ai37, p.count);
    var rest := Opt(Ai3102, p.netWeight) + Opt(Ai10, p.batch) + Opt(Ai7007, p.harvestDate);
    assert Elements(p) == front + rest;
    CountFrontShape(p);
    CountFreeTail(p);
    CountFreeSuffix(front, rest);
  }

  /** Up to (37), the elements put (37) right after (02). */
  lemma CountFrontShape(p: ElementString)
    requires WellShaped(p)
    ensures CountFollowsGtin([Element(Ai00, p.sscc)] + Opt(Ai02, p.gtin) + Opt(Ai37, p.count))
  {
    var front := [Element(Ai00, p.sscc)] + Opt(Ai02, p.gtin) + Opt(Ai37, p.count);
    if p.count.Some? {
      assert front == [Element(Ai00, p.sscc), Element(Ai02, p.gtin.value), Element(Ai37, p.count.value)];
    } else {
      assert |front| <= 2 && front[0].ai == Ai00;
      assert |front| == 2 ==> front[1].ai == Ai02;
    }
  }

  /** After (37) no element is (37). */
  lemma CountFreeTail(p: ElementString)
    ensures forall x :: x in Opt(Ai3102, p.netWeight) + Opt(Ai10, p.batch) + Opt(Ai7007, p.harvestDate) ==> x.ai != Ai37
  {
  }

  /** Appending elements none of which is (37) keeps (37) after (02). */
  lemma CountFreeSuffix(front: seq<Element>, rest: seq<Element>)
    requires CountFollowsGtin(front)
    requires forall x :: x in rest ==> x.ai != Ai37
    ensures CountFollowsGtin(front + rest)
  {
    var es := front + rest;
    forall i | |front| <= i < |es|
      ensures es[i].ai != Ai37
    {
      assert es[i] == rest[i - |front|] && rest[i - |front|] in rest;
    }
    forall i | 0 <= i < |es| && es[i].ai == Ai37
      ensures i > 0 && es[i - 1].ai == Ai02
    {
      assert i < |front| && es[i] == front[i];
      assert i > 0 && es[i - 1] == front[i - 1];
    }
  }


  /** The payload's elements: (00) and the SSCC first, then AIs in the
      order 00, 02, 37, 3102, 10, 7007, with (37) only right after (02). */
  lemma PayloadOrder(sscc: string, lines: seq<PalletLine>, articles: seq<MasterArticle>)
    ensures var es := Elements(PayloadFields(sscc, lines, articles));
      es[0] == Element(Ai00, sscc) && Ordered(es) && CountFollowsGtin(es)
  {
    ElementsOrdered(PayloadFields(sscc, lines, articles));
  }

  /** The article has a GTIN on file. */
  predicate HasGtin(articles: seq<MasterArticle>, code: string) {
    FindArticle(articles, code).Some? && FindArticle(articles, code).value.gtin != []
  }

  /** (02) is present exactly when the lines name one article (lines with
      no article aside) and that article has a GTIN; its data is that GTIN
      as 14 digits. */
  lemma GtinElement(sscc: string, lines: seq<PalletLine>, articles: seq<MasterArticle>, code: string)
    ensures var g := PayloadFields(sscc, lines, articles).gtin;
      && (SingleValue(CodesOf(lines), code) && HasGtin(articles, code) ==>
            g == Some(NormalizeGtin(FindArticle(articles, code).value.gtin)))
      && (g.Some? ==>
            && |g.value| == 14 && IsDigits(g.value)
            && exists c :: SingleValue(CodesOf(lines), c) && HasGtin(articles, c))
  {
    var codes := UniqueValues(CodesOf(lines));
    UniqueValuesSingle(CodesOf(lines), code);
    if |codes| == 1 {
      UniqueValuesSingle(CodesOf(lines), codes[0]);
      assert codes == [codes[0]];
    }
  }

  /** (37) is present exactly when (02) is and at least one collo was
      counted; its data reads back as the total count. */
  lemma CountElement(sscc: string, lines: seq<PalletLine>, articles: seq<MasterArticle>)
    ensures var p := PayloadFields(sscc, lines, articles);
      && (p.count.Some? <==> p.gtin.Some? && TotalColli(lines) > 0)
      && (p.count.Some? ==> IsDigits(p.count.value) && DigitsValue(p.count.value) == TotalColli(lines))
  {
    NatToStringValue(TotalColli(lines));
  }

  /** (3102) is present exactly when the net total is positive; its data
      reads back as the net weight in hundredths of a kilogram, and it has
      the fixed 6 digits only below 10000 kg: it is never truncated. */
  lemma WeightElement(sscc: string, lines: seq<PalletLine>, articles: seq<MasterArticle>)
    ensures var w := PayloadFields(sscc, lines, articles).netWeight;
      var net := Totals(lines).net;
      && (w.Some? <==> net > 0)
      && (w.Some? ==>
            && IsDigits(w.value) && DigitsValue(w.value) == net
            && |w.value| >= 6 && (|w.value| == 6 <==> net < 1000000))
  {
    var net := Totals(lines).net;
    if net > 0 {
      PaddedValue(net, 6);
      NatToStringLength(net, 6);
      assert Pow10(6) == 1000000;
    }
  }

  /** (10) carries batch `b` exactly when `b` is the one non-empty trimmed
      batch of the lines, whatever their articles. */
  lemma BatchElement(sscc: string, lines: seq<PalletLine>, articles: seq<MasterArticle>, b: string)
    ensures PayloadFields(sscc, lines, articles).batch == Some(b) <==> SingleValue(BatchesOf(lines), b)
  {
    var batches := UniqueValues(BatchesOf(lines));
    UniqueValuesSingle(BatchesOf(lines), b);
    if |batches| == 1 {
      assert batches == [batches[0]];
    }
  }

  /** (7007) is present exactly when the lines have one non-empty harvest
      date and it has 8 characters once its dashes are removed; its data is
      that date without dashes. */
  lemma DateElement(sscc: string, lines: seq<PalletLine>, articles: seq<MasterArticle>, date: string)
    ensures var h := PayloadFields(sscc, lines, articles).harvestDate;
      && (SingleValue(DatesOf(lines), date) && |RemoveAll(date, '-')| == 8 ==>
            h == Some(RemoveAll(date, '-')))
      && (h.Some? ==>
            exists d :: SingleValue(DatesOf(lines), d) && h.value == RemoveAll(d, '-') && |h.value| == 8)
  {
    var h := PayloadFields(sscc, lines, articles).harvestDate;
    var dates := UniqueValues(DatesOf(lines));
    assert SingleValue(DatesOf(lines), date) && |RemoveAll(date, '-')| == 8 ==> h == Some(RemoveAll(date, '-')) by {
      UniqueValuesSingle(DatesOf(lines), date);
    }
    if h.Some? {
      assert |dates| == 1;
      UniqueValuesSingle(DatesOf(lines), dates[0]);
      assert dates == [dates[0]];
    }
  }

  /** `hasMixedContent` holds exactly when two lines name different
      articles or carry different trimmed batches (empty values aside). */
  lemma MixedContentIff(lines: seq<PalletLine>)
    ensures MixedContent(lines) <==> TwoDiffer(CodesOf(lines)) || TwoDiffer(BatchesOf(lines))
  {
    UniqueValuesMany(CodesOf(lines));
    UniqueValuesMany(BatchesOf(lines));
  }

  /** src/App.tsx `formatHarvestDateGS1`: an empty date stays empty,
      otherwise the dashes are dropped. */
  function FormatHarvestDate(date: string): (r: string)
    ensures '-' !in r && |r| <= |date|
  {
    if date == [] then [] else RemoveAll(date, '-')
  }

  /** An ISO date `YYYY-MM-DD` of digits becomes the 8-digit `YYYYMMDD`
      that (7007) carries. */
  lemma FormatIsoDate(y: string, m: string, d: string)
    requires IsDigits(y) && IsDigits(m) && IsDigits(d)
    requires |y| == 4 && |m| == 2 && |d| == 2
    ensures FormatHarvestDate(y + "-" + m + "-" + d) == y + m + d
    ensures |FormatHarvestDate(y + "-" + m + "-" + d)| == 8
  {
    DigitsLackNonDigit(y, '-');
    DigitsLackNonDigit(m, '-');
    DigitsLackNonDigit(d, '-');
    RemoveAllAbsent(y, '-');
    RemoveAllAbsent(m, '-');
    RemoveAllAbsent(d, '-');
    RemoveAllDash(y, m);
    RemoveAllDash(y + "-" + m, d);
    assert |y + "-" + m + "-" + d| == 10;
  }

  /** Dropping the dashes of `a-b` joins the two halves without theirs. */
  lemma RemoveAllDash(a: string, b: string)
    ensures RemoveAll(a + "-" + b, '-') == RemoveAll(a, '-') + RemoveAll(b, '-')
  {
    var dash := "-";
    assert RemoveAll(dash, '-') == [] by {
      assert dash[1..] == [];
    }
    RemoveAllAppend(a, dash, '-');
    RemoveAllAppend(a + dash, b, '-');
  }

  /** The (7007) datum is the formatter's output for the one harvest date. */
  lemma DateFieldFormats(lines: seq<PalletLine>)
    ensures DateField(lines).Some? ==>
      exists d :: SingleValue(DatesOf(lines), d) && DateField(lines).value == FormatHarvestDate(d)
  {
    var dates := UniqueValues(DatesOf(lines));
    if DateField(lines).Some? {
      UniqueValuesSingle(DatesOf(lines), dates[0]);
      assert dates == [dates[0]];
      assert dates[0] in NonEmpty(DatesOf(lines));
    }
  }
}
