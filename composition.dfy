/** The pallet composition page, src/pages/PalletCompositionPage.tsx: the
    `lines` state and the operations that replace it, the per-line edit
    with its tare snapshot, and the SSCC the page shows and prints. */
module Composition {
  import opened Base
  import opened Strings
  import opened Records
  import opened Weights
  import opened Sscc

  /** The fields the line form edits through `updateLine(id, field, value)`. */
  datatype LineEdit =
    | SetArticleCode(code: string)
    | SetBatch(batch: string)
    | SetCount(count: nat)
    | SetHarvestDate(date: string)
    | SetPackagingId(packagingId: string)
    | SetPackagingTare(tare: int)
    | SetGrossWeight(gross: int)

  /** `{ ...line, [field]: value }`. */
  function ApplyEdit(line: PalletLine, edit: LineEdit): PalletLine {
    match edit
    case SetArticleCode(c) => line.(articleCode := c)
    case SetBatch(b) => line.(batch := b)
    case SetCount(n) => line.(count := n)
    case SetHarvestDate(d) => line.(harvestDate := d)
    case SetPackagingId(p) => line.(packagingId := p)
    case SetPackagingTare(t) => line.(packagingTare := t)
    case SetGrossWeight(g) => line.(grossWeight := g)
  }

  /** The tare a packaging id selects: the packaging's tare, or 0 when no
      packaging has that id (`pkg ? pkg.tare : '0'`). */
  function PackagingTareOf(packagings: seq<MasterPackaging>, id: string): int {
    var pkg := FindPackaging(packagings, id);
    if pkg.Some? then pkg.value.tare else 0
  }

  /** The line `updateLine` produces: the edited field, the packaging
      defaults it pulls in, then the weight rule. */
  function EditLine(articles: seq<MasterArticle>, packagings: seq<MasterPackaging>,
                    line: PalletLine, edit: LineEdit): PalletLine
  {
    var edited := ApplyEdit(line, edit);
    var withDefaults :=
      match edit
      case SetPackagingId(p) => edited.(packagingTare := PackagingTareOf(packagings, p))
      case SetArticleCode(c) =>
        var art := FindArticle(articles, c);
        if art.Some? && art.value.defaultPackagingId != [] then
          var pkg := FindPackaging(packagings, art.value.defaultPackagingId);
          edited.(packagingId := art.value.defaultPackagingId,
                  packagingTare := if pkg.Some? then pkg.value.tare else edited.packagingTare)
        else edited
      case _ => edited;
    Recompute(articles, withDefaults)
  }

  /** What an edit does to a line: it keeps the line's id and pallets; the
      chosen packaging's tare is copied (0 when unknown); choosing an
      article with a default packaging selects it and copies its tare when
      it exists, keeping the old tare when it does not; the edited value
      itself is kept; no field the edit does not touch changes other than
      the two weights; and the line is balanced, a variable-weight line
      keeping its gross. */
  lemma EditLineSpec(articles: seq<MasterArticle>, packagings: seq<MasterPackaging>,
                     line: PalletLine, edit: LineEdit)
    ensures var r := EditLine(articles, packagings, line, edit);
      && r.id == line.id && r.pallets == line.pallets
      && Balanced(articles, r)
      && (edit.SetPackagingId? ==>
            r.packagingId == edit.packagingId
            && r.packagingTare == PackagingTareOf(packagings, edit.packagingId))
      && (edit.SetArticleCode? ==>
            var art := FindArticle(articles, edit.code);
            && r.articleCode == edit.code
            && (art.Some? && art.value.defaultPackagingId != [] ==>
                  && r.packagingId == art.value.defaultPackagingId
                  && (FindPackaging(packagings, art.value.defaultPackagingId).Some? ==>
                        r.packagingTare == PackagingTareOf(packagings, art.value.defaultPackagingId))
                  && (FindPackaging(packagings, art.value.defaultPackagingId).None? ==>
                        r.packagingTare == line.packagingTare))
            && (art.None? || art.value.defaultPackagingId == [] ==>
                  r.packagingId == line.packagingId && r.packagingTare == line.packagingTare))
      && (edit.SetBatch? ==> r.batch == edit.batch)
      && (edit.SetCount? ==> r.count == edit.count)
      && (edit.SetHarvestDate? ==> r.harvestDate == edit.date)
      && (edit.SetPackagingTare? ==> r.packagingTare == edit.tare)
      && (!IsFixedWeight(articles, r.articleCode) ==>
            r.grossWeight == (if edit.SetGrossWeight? then edit.gross else line.grossWeight))
      && (!edit.SetPackagingId? && !edit.SetArticleCode? ==>
            r == ApplyEdit(line, edit).(netWeight := r.netWeight, grossWeight := r.grossWeight))
      && (edit.SetPackagingId? ==>
            r == line.(packagingId := edit.packagingId,
                       packagingTare := PackagingTareOf(packagings, edit.packagingId),
                       netWeight := r.netWeight, grossWeight := r.grossWeight))
      && (edit.SetArticleCode? ==>
            r == line.(articleCode := edit.code, packagingId := r.packagingId, packagingTare := r.packagingTare,
                       netWeight := r.netWeight, grossWeight := r.grossWeight))
  {
  }

  /** `lines.map(line => line.id !== id ? line : f(line))`. */
  function MapWhere(lines: seq<PalletLine>, id: string, f: PalletLine -> PalletLine): (r: seq<PalletLine>)
    ensures |r| == |lines|
    ensures forall i :: 0 <= i < |lines| ==> r[i] == if lines[i].id == id then f(lines[i]) else lines[i]
  {
    if lines == [] then []
    else [if lines[0].id == id then f(lines[0]) else lines[0]] + MapWhere(lines[1..], id, f)
  }

  /** `lines.filter(l => l.id !== id)`. */
  function RemoveLines(lines: seq<PalletLine>, id: string): (r: seq<PalletLine>)
    ensures forall l :: l in r <==> l in lines && l.id != id
    ensures |r| <= |lines|
  {
    Filter(lines, OtherLine(id))
  }

  /** `l => l.id !== id`. */
  function OtherLine(id: string): PalletLine -> bool {
    (l: PalletLine) => l.id != id
  }

  /** `removeLine` keeps exactly the lines with another id, in their order:
      the removal splits at every index and keeps one line exactly when its
      id differs. */
  lemma RemoveLinesSpec(lines: seq<PalletLine>, id: string)
    ensures forall l :: l in RemoveLines(lines, id) <==> l in lines && l.id != id
    ensures forall k :: 0 <= k <= |lines| ==>
      RemoveLines(lines, id) == RemoveLines(lines[..k], id) + RemoveLines(lines[k..], id)
    ensures forall i :: 0 <= i < |lines| ==>
      RemoveLines([lines[i]], id) == if lines[i].id != id then [lines[i]] else []
  {
    FilterOrder(lines, OtherLine(id));
  }

  /** Editing a line and then removing it leaves what removing it alone
      leaves: the edit touches no other line. */
  lemma EditThenRemove(lines: seq<PalletLine>, id: string, f: PalletLine -> PalletLine)
    requires forall l :: f(l).id == l.id
    ensures RemoveLines(MapWhere(lines, id, f), id) == RemoveLines(lines, id)
  {
    SameFilter(MapWhere(lines, id, f), lines, OtherLine(id));
  }

  /** Repeating an edit with the same value changes nothing more. */
  lemma EditIdempotent(articles: seq<MasterArticle>, packagings: seq<MasterPackaging>,
                       line: PalletLine, edit: LineEdit)
    ensures var once := EditLine(articles, packagings, line, edit);
      EditLine(articles, packagings, once, edit) == once
  {
  }

  /** The empty line `addLine` appends and the page starts with: today's
      harvest date, no article, no packaging, zero weights. */
  function BlankLine(id: string, today: string): PalletLine {
    PalletLine(id, "", "", 0, today, "", 0, [], 0, 0)
  }

  /** Removing a line that was just added (with a fresh id) gives back
      the lines as they were. */
  lemma AddThenRemoveLine(lines: seq<PalletLine>, id: string, today: string)
    requires forall i :: 0 <= i < |lines| ==> lines[i].id != id
    ensures RemoveLines(lines + [BlankLine(id, today)], id) == lines
  {
    FilterAppend(lines, [BlankLine(id, today)], OtherLine(id));
    FilterKeepsAll(lines, OtherLine(id));
    assert [BlankLine(id, today)][..0] == [];
  }

  /** `initialData?.sscc || calculateSSCC(companyPrefix, serialNumber)`:
      an edited pallet keeps its code; a new one gets the printed SSCC of
      the current serial. */
  function PageSscc(initialData: Option<PalletHistory>, prefix: string, serial: nat): (r: string)
    requires IsDigits(prefix)
    ensures initialData.Some? && initialData.value.sscc != [] ==> r == initialData.value.sscc
    ensures initialData.None? || initialData.value.sscc == [] ==> r == PrintedSscc(prefix, serial)
  {
    if initialData.Some? && initialData.value.sscc != [] then initialData.value.sscc
    else PrintedSscc(prefix, serial)
  }

  class PalletComposition {
    var lines: seq<PalletLine>
    var recipientCode: string
    const articles: seq<MasterArticle>
    const packagings: seq<MasterPackaging>
    const palletMasters: seq<MasterPallet>
    const initialData: Option<PalletHistory>

    /** The page opens on the edited pallet's lines and recipient, or on
        one blank line and no recipient (`initialData?.lines || [...]`: an
        edited pallet with no lines stays empty). */
    constructor(articles: seq<MasterArticle>, packagings: seq<MasterPackaging>,
                palletMasters: seq<MasterPallet>, initialData: Option<PalletHistory>,
                firstLineId: string, today: string)
      ensures this.articles == articles && this.packagings == packagings
      ensures this.palletMasters == palletMasters && this.initialData == initialData
      ensures lines == if initialData.Some? then initialData.value.lines else [BlankLine(firstLineId, today)]
      ensures recipientCode == if initialData.Some? then initialData.value.recipientCode else ""
    {
      this.articles := articles;
      this.packagings := packagings;
      this.palletMasters := palletMasters;
      this.initialData := initialData;
      if initialData.Some? {
        lines := initialData.value.lines;
        recipientCode := initialData.value.recipientCode;
      } else {
        lines := [BlankLine(firstLineId, today)];
        recipientCode := "";
      }
    }

    method SelectRecipient(code: string)
      modifies this
      ensures recipientCode == code && lines == old(lines)
    {
      recipientCode := code;
    }

    /** `addLine`. */
    method AddLine(id: string, today: string)
      modifies this
      ensures lines == old(lines) + [BlankLine(id, today)]
      ensures recipientCode == old(recipientCode)
    {
      lines := lines + [BlankLine(id, today)];
    }

    /** `removeLine`. */
    method RemoveLine(id: string)
      modifies this
      ensures lines == RemoveLines(old(lines), id)
      ensures recipientCode == old(recipientCode)
    {
      lines := RemoveLines(lines, id);
    }

    /** `addPalletToLine`: an unknown master changes nothing; otherwise the
        target line gains one instance and is recalculated. */
    method AddPalletToLine(lineId: string, masterId: string, instanceId: string)
      modifies this
      ensures FindPalletMaster(palletMasters, masterId).None? ==> lines == old(lines)
      ensures FindPalletMaster(palletMasters, masterId).Some? ==>
        lines == MapWhere(old(lines), lineId,
          l => WithPallet(articles, l, FindPalletMaster(palletMasters, masterId).value, instanceId))
      ensures recipientCode == old(recipientCode)
    {
      var master := FindPalletMaster(palletMasters, masterId);
      if master.None? {
        return;
      }
      lines := MapWhere(lines, lineId, l => WithPallet(articles, l, master.value, instanceId));
    }

    /** `removePalletFromLine`. */
    method RemovePalletFromLine(lineId: string, instanceId: string)
      modifies this
      ensures lines == MapWhere(old(lines), lineId, l => WithoutPallet(articles, l, instanceId))
      ensures recipientCode == old(recipientCode)
    {
      lines := MapWhere(lines, lineId, l => WithoutPallet(articles, l, instanceId));
    }

    /** The body of the `updateLine` callback, field by field. */
    method UpdatedLine(line: PalletLine, edit: LineEdit) returns (updated: PalletLine)
      ensures updated == EditLine(articles, packagings, line, edit)
    {
      updated := ApplyEdit(line, edit);
      if edit.SetPackagingId? {
        var pkg := FindPackaging(packagings, edit.packagingId);
        updated := updated.(packagingTare := if pkg.Some? then pkg.value.tare else 0);
      }
      if edit.SetArticleCode? {
        var art := FindArticle(articles, edit.code);
        if art.Some? && art.value.defaultPackagingId != [] {
          updated := updated.(packagingId := art.value.defaultPackagingId);
          var pkg := FindPackaging(packagings, art.value.defaultPackagingId);
          if pkg.Some? {
            updated := updated.(packagingTare := pkg.value.tare);
          }
        }
      }
      var tare := LineTare(updated);
      if IsFixedWeight(articles, updated.articleCode) {
        var net := UnitWeight(articles, updated.articleCode) * updated.count;
        updated := updated.(netWeight := net, grossWeight := net + tare);
      } else {
        updated := updated.(netWeight := Max0(updated.grossWeight - tare));
      }
    }

    /** `updateLine`: every line with the id is edited, the others are kept. */
    method UpdateLine(id: string, edit: LineEdit)
      modifies this
      ensures lines == MapWhere(old(lines), id, l => EditLine(articles, packagings, l, edit))
      ensures recipientCode == old(recipientCode)
    {
      var current := lines;
      var result: seq<PalletLine> := [];
      var i := 0;
      while i < |current|
        invariant 0 <= i <= |current| && |result| == i
        invariant lines == current && recipientCode == old(recipientCode)
        invariant forall k :: 0 <= k < i ==>
          result[k] == if current[k].id == id then EditLine(articles, packagings, current[k], edit) else current[k]
      {
        var next := current[i];
        if next.id == id {
          next := UpdatedLine(next, edit);
        }
        result := result + [next];
        i := i + 1;
      }
      lines := result;
    }
  }
}
