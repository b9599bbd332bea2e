/** The article form of src/pages/ArticlesPage.tsx: `handleSave` runs its
    checks in a fixed order and hands the normalized article to `onSave`
    only when all of them pass. */
module Articles {
  import opened Base
  import opened Strings
  import opened CheckDigit
  import opened Records
  import opened Gtin

  /** The submitted form fields, each already defaulted as `|| ''` (or
      `|| '0'` for the unit weight) does. The unit weight is read in
      hundredths of a kilogram; a blank field reads as 0. */
  datatype ArticleForm = ArticleForm(
    code: string,
    description: string,
    gtin: string,
    origin: string,
    um: Um,
    unitWeight: int,
    weightType: WeightType,
    defaultPackagingId: string)

  /** The four messages `handleSave` can show, in the order it checks. */
  datatype SaveError = InvalidGtin | InvalidOrigin | InvalidUnitWeight | MissingFields

  datatype SaveOutcome = Saved(article: MasterArticle) | Rejected(error: SaveError)

  predicate IsUpperAscii(c: char) { 'A' <= c <= 'Z' }

  /** `/^[A-Z]{2}$/.test(o) || /^\d{3}$/.test(o)`: an ISO alpha-2 code or a
      three-digit numeric code. */
  predicate ValidOrigin(o: string) {
    || (|o| == 2 && IsUpperAscii(o[0]) && IsUpperAscii(o[1]))
    || (|o| == 3 && IsDigits(o))
  }

  /** `formData.get('origin').trim().toUpperCase()`. */
  function NormalizeOrigin(origin: string): string {
    ToUpper(Trim(origin))
  }

  /** handleSave, src/pages/ArticlesPage.tsx: GTIN first, then origin, then
      the unit weight of a fixed-weight article, then the required fields. */
  function HandleSave(form: ArticleForm): SaveOutcome {
    var gtin := NormalizeToGtin14(form.gtin);
    if gtin.None? then Rejected(InvalidGtin)
    else
      var origin := NormalizeOrigin(form.origin);
      if !ValidOrigin(origin) then Rejected(InvalidOrigin)
      else if form.weightType == FIXED && form.unitWeight <= 0 then Rejected(InvalidUnitWeight)
      else
        var article := MasterArticle(Trim(form.code), Trim(form.description), gtin.value,
                                     origin, form.um, form.unitWeight, form.weightType,
                                     form.defaultPackagingId);
        if article.code == [] || article.description == [] then Rejected(MissingFields)
        else Saved(article)
  }

  /** The four checks, each stated on its own. */
  predicate GtinAccepted(form: ArticleForm) {
    GtinLength(|KeepDigits(form.gtin)|) && HasValidCheckDigit(KeepDigits(form.gtin))
  }

  predicate OriginAccepted(form: ArticleForm) {
    ValidOrigin(NormalizeOrigin(form.origin))
  }

  predicate WeightAccepted(form: ArticleForm) {
    form.weightType == FIXED ==> form.unitWeight > 0
  }

  predicate FieldsPresent(form: ArticleForm) {
    Trim(form.code) != [] && Trim(form.description) != []
  }

  /** Each rejection names the first check that fails: every earlier check
      passed and this one did not. The article is saved exactly when all
      four pass, and then it carries the padded, valid GTIN-14, the
      uppercased origin and the trimmed code and description. */
  lemma HandleSaveSpec(form: ArticleForm)
    ensures HandleSave(form) == Rejected(InvalidGtin) <==> !GtinAccepted(form)
    ensures HandleSave(form) == Rejected(InvalidOrigin)
      <==> GtinAccepted(form) && !OriginAccepted(form)
    ensures HandleSave(form) == Rejected(InvalidUnitWeight)
      <==> GtinAccepted(form) && OriginAccepted(form) && !WeightAccepted(form)
    ensures HandleSave(form) == Rejected(MissingFields)
      <==> GtinAccepted(form) && OriginAccepted(form) && WeightAccepted(form) && !FieldsPresent(form)
    ensures HandleSave(form).Saved?
      <==> GtinAccepted(form) && OriginAccepted(form) && WeightAccepted(form) && FieldsPresent(form)
    ensures var r := HandleSave(form);
      r.Saved? ==>
        && r.article.gtin == PadStart(KeepDigits(form.gtin), 14, '0')
        && |r.article.gtin| == 14 && HasValidCheckDigit(r.article.gtin)
        && r.article.origin == ToUpper(Trim(form.origin)) && ValidOrigin(r.article.origin)
        && r.article.code == Trim(form.code) && r.article.description == Trim(form.description)
        && (r.article.weightType == FIXED ==> r.article.unitWeight > 0)
  {
    NormalizeToGtin14Spec(form.gtin);
  }

  /** The edit form starts from the stored article's values. */
  function FormOf(a: MasterArticle): ArticleForm {
    ArticleForm(a.code, a.description, a.gtin, a.origin, a.um, a.unitWeight,
                a.weightType, a.defaultPackagingId)
  }

  /** A valid origin is already trimmed and in upper case. */
  lemma ValidOriginNormal(o: string)
    requires ValidOrigin(o)
    ensures NormalizeOrigin(o) == o
  {
    assert !IsWhitespace(o[0]) && !IsWhitespace(o[|o| - 1]) && ToUpper(o) == o by {
      if |o| == 2 {
        assert IsUpperAscii(o[0]) && IsUpperAscii(o[1]);
      } else {
        assert IsDigit(o[0]) && IsDigit(o[1]) && IsDigit(o[2]);
      }
    }
    TrimOfTrimmed(o);
  }

  /** Saving an article that was saved before, without touching the form,
      stores the very same article. */
  lemma ResaveUnchanged(form: ArticleForm)
    requires HandleSave(form).Saved?
    ensures HandleSave(FormOf(HandleSave(form).article)) == HandleSave(form)
  {
    var a := HandleSave(form).article;
    HandleSaveSpec(form);
    NormalizeToGtin14Idempotent(form.gtin);
    ValidOriginNormal(a.origin);
    TrimIdempotent(form.code);
    TrimIdempotent(form.description);
  }
}
