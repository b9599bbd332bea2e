/** The state of the `App` component of src/App.tsx and the handlers that
    change it: the company prefix and SSCC serial, the master data, the
    pallet history and the DDTs, and the DDT page's draft (recipient,
    number, date, carrier fields, selected pallets) with the document
    being edited. Each `useState` pair becomes a field and each handler a
    method whose contract is the transition of module Shipments or
    MasterData it performs. Valid() is the pallet/DDT link together with
    a ready selection; the methods keep it under the conditions they
    name. */
module Ledger {
  import opened Base
  import opened Strings
  import opened Records
  import opened Weights
  import opened Composition
  import opened DdtNumber
  import opened Shipments
  import opened ShipmentLaws
  import opened MasterData

  /** `initialData?.id`. */
  function EditedId(initialData: Option<PalletHistory>): Option<string> {
    if initialData.Some? then Some(initialData.value.id) else None
  }

  /** The carrier fields the DDT page starts with; `now` is the first 16
      characters of the ISO time. */
  function DefaultTransport(now: string): Transport {
    Transport("Vettore Proprio", "", "Vendita", "Colli su Pedane", now, "Franco", "", "")
  }

  class ShipmentLedger {
    var companyPrefix: string
    var serialNumber: nat
    var articles: seq<MasterArticle>
    var packagings: seq<MasterPackaging>
    var palletMasters: seq<MasterPallet>
    var recipients: seq<MasterRecipient>
    var history: seq<PalletHistory>
    var ddts: seq<MasterDdt>
    var editingPallet: Option<PalletHistory>
    var draft: DdtDraft
    var editingDdt: Option<MasterDdt>

    /** The link is consistent and the selection could go on a document. */
    ghost predicate Valid()
      reads this
    {
      && LinkInvariant(Archive(history, ddts))
      && SelectionReady(Archive(history, ddts), draft.selected, editingDdt)
    }

    twostate predicate MastersUnchanged()
      reads this
    {
      && companyPrefix == old(companyPrefix)
      && articles == old(articles) && packagings == old(packagings)
      && palletMasters == old(palletMasters) && recipients == old(recipients)
    }

    twostate predicate ArchiveUnchanged()
      reads this
    {
      history == old(history) && ddts == old(ddts) && serialNumber == old(serialNumber)
    }

    twostate predicate SessionUnchanged()
      reads this
    {
      draft == old(draft) && editingDdt == old(editingDdt) && editingPallet == old(editingPallet)
    }

    /** The state read back from storage, with a fresh DDT draft dated
        `today`. */
    constructor(companyPrefix: string, serialNumber: nat, articles: seq<MasterArticle>,
                packagings: seq<MasterPackaging>, palletMasters: seq<MasterPallet>,
                recipients: seq<MasterRecipient>, history: seq<PalletHistory>, ddts: seq<MasterDdt>,
                today: string, now: string)
      ensures this.companyPrefix == companyPrefix && this.serialNumber == serialNumber
      ensures this.articles == articles && this.packagings == packagings
      ensures this.palletMasters == palletMasters && this.recipients == recipients
      ensures this.history == history && this.ddts == ddts
      ensures editingPallet == None && editingDdt == None
      ensures draft == DdtDraft("", "", today, DefaultTransport(now), [])
      ensures LinkInvariant(Archive(history, ddts)) ==> Valid()
    {
      this.companyPrefix := companyPrefix;
      this.serialNumber := serialNumber;
      this.articles := articles;
      this.packagings := packagings;
      this.palletMasters := palletMasters;
      this.recipients := recipients;
      this.history := history;
      this.ddts := ddts;
      editingPallet := None;
      editingDdt := None;
      draft := DdtDraft("", "", today, DefaultTransport(now), []);
    }

    // -------------------------------------------------------------------
    // Pallets

    /** The archive's edit button: the composition page opens on `p`. */
    method EditPallet(p: PalletHistory)
      modifies this
      ensures editingPallet == Some(p)
      ensures draft == old(draft) && editingDdt == old(editingDdt)
      ensures ArchiveUnchanged() && MastersUnchanged()
    {
      editingPallet := Some(p);
    }

    /** The tail of `generatePDF` on the composition page: with a known
        recipient, the pallet is saved under the page's SSCC (the edited
        pallet's, or the one `calculateSSCC` builds from the serial), the
        serial advances by one for a new pallet only, and the page closes.
        With a fresh id for a new pallet the state stays valid. */
    method GeneratePallet(page: PalletComposition, newId: string, now: string)
      requires IsDigits(companyPrefix)
      requires page.initialData == editingPallet
      modifies this
      ensures FindRecipient(recipients, page.recipientCode).None? ==>
                ArchiveUnchanged() && SessionUnchanged()
      ensures FindRecipient(recipients, page.recipientCode).Some? ==>
                && history == SaveToHistory(old(history), PageSscc(page.initialData, old(companyPrefix), old(serialNumber)),
                                            page.lines, page.recipientCode, Totals(page.lines),
                                            EditedId(page.initialData), newId, now)
                && serialNumber == (if page.initialData.None? then old(serialNumber) + 1 else old(serialNumber))
                && editingPallet == None
                && ddts == old(ddts) && draft == old(draft) && editingDdt == old(editingDdt)
      ensures MastersUnchanged()
      ensures old(Valid()) && (EditedId(page.initialData).None? || EditedId(page.initialData).value == []
                               ==> newId !in PalletIds(old(history)))
              ==> Valid()
    {
      var recipient := FindRecipient(recipients, page.recipientCode);
      if recipient.None? {
        return;
      }
      var sscc := PageSscc(page.initialData, companyPrefix, serialNumber);
      SavePallet(sscc, page.lines, page.recipientCode, page.initialData, newId, now);
    }

    /** The save itself: the archive entry, the serial bump for a new
        pallet, and the page closing. */
    method SavePallet(sscc: string, lines: seq<PalletLine>, recipientCode: string,
                      initialData: Option<PalletHistory>, newId: string, now: string)
      modifies this
      ensures history == SaveToHistory(old(history), sscc, lines, recipientCode, Totals(lines),
                                       EditedId(initialData), newId, now)
      ensures serialNumber == (if initialData.None? then old(serialNumber) + 1 else old(serialNumber))
      ensures editingPallet == None
      ensures ddts == old(ddts) && draft == old(draft) && editingDdt == old(editingDdt)
      ensures MastersUnchanged()
      ensures old(Valid()) && (EditedId(initialData).None? || EditedId(initialData).value == []
                               ==> newId !in PalletIds(old(history)))
              ==> Valid()
    {
      var totals := Totals(lines);
      ghost var before := Archive(history, ddts);
      ghost var selected := draft.selected;
      ghost var editing := editingDdt;
      ghost var linked := LinkInvariant(before);
      ghost var ready := SelectionReady(before, selected, editing);
      assert Valid() ==> linked && ready;
      var id := EditedId(initialData);
      history := SaveToHistory(history, sscc, lines, recipientCode, totals, id, newId, now);
      if initialData.None? {
        serialNumber := serialNumber + 1;
      }
      editingPallet := None;
      if linked && ready && (id.None? || id.value == [] ==> newId !in PalletIds(before.history)) {
        SavePreserves(before.history, before.ddts, sscc, lines, recipientCode, totals, id, newId, now);
        SaveKeepsSelection(before.history, before.ddts, selected, editing, sscc, lines,
                           recipientCode, totals, id, newId, now);
      }
    }

    /** `deletePallet`, with the deleted pallet also dropped from the DDT
        selection (the source leaves it selected; see
        CreateAfterDeletedSelectionLists). */
    method DeletePallet(id: string, confirmed: bool)
      modifies this
      ensures history == Shipments.DeletePallet(old(history), id, confirmed)
      ensures draft == if Deletes(old(history), id, confirmed) then old(draft).(selected := Deselect(old(draft.selected), id))
                       else old(draft)
      ensures ddts == old(ddts) && serialNumber == old(serialNumber)
      ensures editingDdt == old(editingDdt) && editingPallet == old(editingPallet)
      ensures MastersUnchanged()
      ensures old(Valid()) ==> Valid()
    {
      ghost var before := Archive(history, ddts);
      ghost var wasValid := Valid();
      ghost var selected := draft.selected;
      var pallet := FindPallet(history, id);
      if pallet.Some? && HasDdt(pallet.value) {
        return;
      }
      if confirmed {
        history := DropPallet(history, id);
        draft := draft.(selected := Deselect(draft.selected, id));
      }
      if wasValid {
        DeletePalletPreserves(before.history, before.ddts, id, confirmed);
        DeletePalletKeepsSelection(before, selected, editingDdt, id, confirmed);
      }
    }

    /** "Svuota Archivio": the history is emptied and nothing else changes;
        the documents keep listing the removed pallets (ClearHistoryBreaks). */
    method ClearHistory()
      modifies this
      ensures history == []
      ensures ddts == old(ddts) && serialNumber == old(serialNumber)
      ensures SessionUnchanged() && MastersUnchanged()
    {
      history := [];
    }

    // -------------------------------------------------------------------
    // DDT page

    /** The number the page proposes for `year` (the effect that runs
        when the page opens or the documents change). */
    method SuggestNumber(year: nat)
      modifies this
      ensures draft == old(draft).(number := SuggestDdtNumber(ddts, year))
      ensures editingDdt == old(editingDdt) && editingPallet == old(editingPallet)
      ensures ArchiveUnchanged() && MastersUnchanged()
      ensures old(Valid()) ==> Valid()
    {
      draft := draft.(number := SuggestDdtNumber(ddts, year));
    }

    /** Choosing the recipient clears the selection. */
    method SelectRecipient(code: string)
      modifies this
      ensures draft == old(draft).(recipientCode := code, selected := [])
      ensures editingDdt == old(editingDdt) && editingPallet == old(editingPallet)
      ensures ArchiveUnchanged() && MastersUnchanged()
      ensures old(Valid()) ==> Valid()
    {
      draft := draft.(recipientCode := code, selected := []);
    }

    /** Clicking a pallet card. A card is shown only for a pallet the page
        offers, and clicking one keeps the state valid. */
    method TogglePallet(id: string)
      modifies this
      ensures draft == old(draft).(selected := Toggle(old(draft.selected), id))
      ensures editingDdt == old(editingDdt) && editingPallet == old(editingPallet)
      ensures ArchiveUnchanged() && MastersUnchanged()
      ensures old(Valid()) && (id !in old(draft.selected) ==>
                id in PalletIds(Selectable(history, draft.recipientCode, editingDdt)))
              ==> Valid()
    {
      ghost var wasValid := Valid();
      ghost var selected := draft.selected;
      if id in draft.selected {
        draft := draft.(selected := Deselect(draft.selected, id));
      } else {
        draft := draft.(selected := draft.selected + [id]);
      }
      if wasValid && (id !in selected ==> id in PalletIds(Selectable(history, draft.recipientCode, editingDdt))) {
        ToggleKeepsSelection(Archive(history, ddts), selected, editingDdt, draft.recipientCode, id);
      }
    }

    /** `startEditDdt`: the draft is loaded from the document. Editing a
        document of the archive keeps the state valid. */
    method StartEditDdt(d: MasterDdt)
      modifies this
      ensures editingDdt == Some(d)
      ensures draft == DdtDraft(d.recipientCode, d.number, d.date, d.transport, d.palletIds)
      ensures editingPallet == old(editingPallet)
      ensures ArchiveUnchanged() && MastersUnchanged()
      ensures old(Valid()) && d in ddts ==> Valid()
    {
      editingDdt := Some(d);
      draft := DdtDraft(d.recipientCode, d.number, d.date, d.transport, d.palletIds);
      if LinkInvariant(Archive(history, ddts)) && d in ddts {
        StartEditReady(Archive(history, ddts), d);
      }
    }

    /** "Annulla Modifica": the edit ends and the number and selection are
        cleared. */
    method CancelEdit()
      modifies this
      ensures editingDdt == None
      ensures draft == old(draft).(number := "", selected := [])
      ensures editingPallet == old(editingPallet)
      ensures ArchiveUnchanged() && MastersUnchanged()
      ensures old(Valid()) ==> Valid()
    {
      editingDdt := None;
      draft := draft.(number := "", selected := []);
    }

    /** `createDDT`: an incomplete draft changes nothing; otherwise the
        archive takes the CreateDdt transition, the edit ends and the
        number and selection are cleared. With a fresh id for a new
        document the state stays valid. */
    method CreateDdt(newId: string)
      modifies this
      ensures Archive(history, ddts) == Shipments.CreateDdt(Archive(old(history), old(ddts)), old(draft), old(editingDdt), newId)
      ensures Incomplete(old(draft)) ==> draft == old(draft) && editingDdt == old(editingDdt)
      ensures !Incomplete(old(draft)) ==> draft == old(draft).(number := "", selected := []) && editingDdt == None
      ensures serialNumber == old(serialNumber) && editingPallet == old(editingPallet)
      ensures MastersUnchanged()
      ensures old(Valid()) && (old(editingDdt).None? ==> newId != [] && newId !in DdtIds(old(ddts))) ==> Valid()
    {
      ghost var before := Archive(history, ddts);
      ghost var wasValid := Valid();
      if Incomplete(draft) {
        return;
      }
      if wasValid && (editingDdt.None? ==> newId != [] && newId !in DdtIds(ddts)) {
        CreateDdtPreserves(before, draft, editingDdt, newId);
      }
      if editingDdt.Some? {
        var doc := DraftDocument(draft, editingDdt.value.id);
        ddts := ReplaceDdt(ddts, doc);
        history := LinkSelected(Unlink(history, doc.id), draft.selected, doc.id);
        editingDdt := None;
      } else {
        var doc := DraftDocument(draft, newId);
        ddts := [doc] + ddts;
        history := LinkSelected(history, draft.selected, doc.id);
      }
      draft := draft.(number := "", selected := []);
    }

    /** `deleteDdt`; deleting the document being edited also ends the edit
        as "Annulla Modifica" does (the source leaves it open; see
        EditOfDeletedDdtDangles). */
    method DeleteDdt(id: string, confirmed: bool)
      modifies this
      ensures Archive(history, ddts) == Shipments.DeleteDdt(Archive(old(history), old(ddts)), id, confirmed)
      ensures confirmed && old(editingDdt).Some? && old(editingDdt).value.id == id ==>
                editingDdt == None && draft == old(draft).(number := "", selected := [])
      ensures !(confirmed && old(editingDdt).Some? && old(editingDdt).value.id == id) ==>
                editingDdt == old(editingDdt) && draft == old(draft)
      ensures serialNumber == old(serialNumber) && editingPallet == old(editingPallet)
      ensures MastersUnchanged()
      ensures old(Valid()) ==> Valid()
    {
      ghost var before := Archive(history, ddts);
      ghost var wasValid := Valid();
      if confirmed {
        ddts := DropDdt(ddts, id);
        history := Unlink(history, id);
        if editingDdt.Some? && editingDdt.value.id == id {
          editingDdt := None;
          draft := draft.(number := "", selected := []);
        }
      }
      if wasValid {
        DeleteDdtPreserves(before, id, confirmed);
        if confirmed {
          DeleteDdtKeepsSelection(before, draft.selected, editingDdt, id, confirmed);
        }
      }
    }

    // -------------------------------------------------------------------
    // Master data

    /** `saveArticle`, which the article page calls with the record
        `handleSave` accepted: the article is upserted by code. */
    method SaveArticle(article: MasterArticle)
      modifies this
      ensures articles == Upsert(old(articles), article, ArticleCode)
      ensures packagings == old(packagings) && palletMasters == old(palletMasters) && recipients == old(recipients)
      ensures companyPrefix == old(companyPrefix)
      ensures ArchiveUnchanged() && SessionUnchanged()
    {
      articles := Upsert(articles, article, ArticleCode);
    }

    method DeleteArticle(code: string)
      modifies this
      ensures articles == DeleteKey(old(articles), code, ArticleCode)
      ensures packagings == old(packagings) && palletMasters == old(palletMasters) && recipients == old(recipients)
      ensures companyPrefix == old(companyPrefix)
      ensures ArchiveUnchanged() && SessionUnchanged()
    {
      articles := DeleteKey(articles, code, ArticleCode);
    }

    method SavePackaging(p: MasterPackaging)
      modifies this
      ensures packagings == Upsert(old(packagings), p, PackagingId)
      ensures articles == old(articles) && palletMasters == old(palletMasters) && recipients == old(recipients)
      ensures companyPrefix == old(companyPrefix)
      ensures ArchiveUnchanged() && SessionUnchanged()
    {
      packagings := Upsert(packagings, p, PackagingId);
    }

    method DeletePackaging(id: string)
      modifies this
      ensures packagings == DeleteKey(old(packagings), id, PackagingId)
      ensures articles == old(articles) && palletMasters == old(palletMasters) && recipients == old(recipients)
      ensures companyPrefix == old(companyPrefix)
      ensures ArchiveUnchanged() && SessionUnchanged()
    {
      packagings := DeleteKey(packagings, id, PackagingId);
    }

    method SavePalletMaster(p: MasterPallet)
      modifies this
      ensures palletMasters == Upsert(old(palletMasters), p, PalletMasterId)
      ensures articles == old(articles) && packagings == old(packagings) && recipients == old(recipients)
      ensures companyPrefix == old(companyPrefix)
      ensures ArchiveUnchanged() && SessionUnchanged()
    {
      palletMasters := Upsert(palletMasters, p, PalletMasterId);
    }

    method DeletePalletMaster(id: string)
      modifies this
      ensures palletMasters == DeleteKey(old(palletMasters), id, PalletMasterId)
      ensures articles == old(articles) && packagings == old(packagings) && recipients == old(recipients)
      ensures companyPrefix == old(companyPrefix)
      ensures ArchiveUnchanged() && SessionUnchanged()
    {
      palletMasters := DeleteKey(palletMasters, id, PalletMasterId);
    }

    method SaveRecipient(r: MasterRecipient)
      modifies this
      ensures recipients == Upsert(old(recipients), r, RecipientCode)
      ensures articles == old(articles) && packagings == old(packagings) && palletMasters == old(palletMasters)
      ensures companyPrefix == old(companyPrefix)
      ensures ArchiveUnchanged() && SessionUnchanged()
    {
      recipients := Upsert(recipients, r, RecipientCode);
    }

    method DeleteRecipient(code: string)
      modifies this
      ensures recipients == DeleteKey(old(recipients), code, RecipientCode)
      ensures articles == old(articles) && packagings == old(packagings) && palletMasters == old(palletMasters)
      ensures companyPrefix == old(companyPrefix)
      ensures ArchiveUnchanged() && SessionUnchanged()
    {
      recipients := DeleteKey(recipients, code, RecipientCode);
    }
  }
}
