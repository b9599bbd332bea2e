/** What the archive transitions of module Shipments promise: how each one
    changes the pallets and documents, and that each keeps the pallet/DDT
    link consistent (LinkInvariant) under the conditions the DDT page
    establishes before it calls them. */
module ShipmentLaws {
  import opened Base
  import opened Records
  import opened Weights
  import opened Shipments

  /** An available pallet is listed at most by the document being
      edited. */
  lemma AvailableFree(a: Archive, editing: Option<MasterDdt>)
    requires LinkInvariant(a)
    ensures forall p, d :: p in a.history && Available(p, editing) && d in a.ddts && p.id in d.palletIds
              ==> editing.Some? && d.id == editing.value.id
  {
    forall p, d | p in a.history && Available(p, editing) && d in a.ddts && p.id in d.palletIds
      ensures editing.Some? && d.id == editing.value.id
    {
      assert p.ddtId == Some(d.id);
    }
  }

  /** The page offers exactly the available pallets of the recipient, none
      of them listed by a document other than the one being edited. */
  lemma SelectableSpec(a: Archive, recipientCode: string, editing: Option<MasterDdt>)
    requires LinkInvariant(a)
    ensures forall p :: p in Selectable(a.history, recipientCode, editing) <==>
              p in a.history && p.recipientCode == recipientCode && Available(p, editing)
    ensures forall p, d :: p in Selectable(a.history, recipientCode, editing) && d in a.ddts && p.id in d.palletIds
              ==> editing.Some? && d.id == editing.value.id
  {
    AvailableFree(a, editing);
  }

  /** What the DDT page keeps of its selection: no id twice, each naming an
      available pallet of the history, and the edited document, if any,
      still in the archive. */
  predicate SelectionReady(a: Archive, selected: seq<string>, editing: Option<MasterDdt>) {
    && NoDup(selected)
    && (forall k :: k in selected ==> exists p :: p in a.history && p.id == k && Available(p, editing))
    && (editing.Some? ==> editing.value.id in DdtIds(a.ddts))
  }

  /** A draft ready for `createDDT`: its selection is ready and a new
      document gets a fresh non-empty id. */
  predicate DraftReady(a: Archive, draft: DdtDraft, editing: Option<MasterDdt>, newId: string) {
    && SelectionReady(a, draft.selected, editing)
    && (editing.None? ==> newId != [] && newId !in DdtIds(a.ddts))
  }

  // ---------------------------------------------------------------------
  // saveToHistory

  /** Saving an edit keeps every entry's id, date and DDT link; the entries
      with the edited id take the new SSCC, recipient, lines and totals and
      the others are left as they were. */
  lemma SaveEditSpec(history: seq<PalletHistory>, sscc: string, lines: seq<PalletLine>,
                     recipientCode: string, totals: WeightTotals, id: string, newId: string, now: string)
    requires id != []
    ensures var r := SaveToHistory(history, sscc, lines, recipientCode, totals, Some(id), newId, now);
      && |r| == |history|
      && forall i :: 0 <= i < |history| ==>
           && r[i].id == history[i].id && r[i].date == history[i].date && r[i].ddtId == history[i].ddtId
           && (history[i].id != id ==> r[i] == history[i])
           && (history[i].id == id ==>
                 && r[i].sscc == sscc && r[i].recipientCode == recipientCode && r[i].lines == lines
                 && r[i].totalNetWeight == totals.net && r[i].totalGrossWeight == totals.gross
                 && r[i].totalTare == totals.lineTare)
  {
  }

  /** Saving a new pallet puts one unlinked entry, dated `now`, before the
      unchanged history. */
  lemma SaveNewSpec(history: seq<PalletHistory>, sscc: string, lines: seq<PalletLine>,
                    recipientCode: string, totals: WeightTotals, id: Option<string>, newId: string, now: string)
    requires !(id.Some? && id.value != [])
    ensures var r := SaveToHistory(history, sscc, lines, recipientCode, totals, id, newId, now);
      && |r| == |history| + 1 && r[1..] == history
      && r[0].id == newId && r[0].date == now && r[0].ddtId == None
      && r[0].sscc == sscc && r[0].recipientCode == recipientCode && r[0].lines == lines
  {
  }

  /** Saving the same edit twice is saving it once. */
  lemma SaveEditIdempotent(history: seq<PalletHistory>, sscc: string, lines: seq<PalletLine>,
                           recipientCode: string, totals: WeightTotals, id: string, newId: string, now: string)
    requires id != []
    ensures var once := SaveToHistory(history, sscc, lines, recipientCode, totals, Some(id), newId, now);
      SaveToHistory(once, sscc, lines, recipientCode, totals, Some(id), newId, now) == once
  {
    var once := SaveToHistory(history, sscc, lines, recipientCode, totals, Some(id), newId, now);
    var twice := SaveToHistory(once, sscc, lines, recipientCode, totals, Some(id), newId, now);
    assert forall i :: 0 <= i < |once| ==> twice[i] == once[i];
  }

  /** Saving keeps the link consistent, given a fresh id for a new pallet;
      an edit keeps the id list and a new pallet puts its id first. */
  lemma SavePreserves(history: seq<PalletHistory>, ddts: seq<MasterDdt>, sscc: string, lines: seq<PalletLine>,
                      recipientCode: string, totals: WeightTotals, id: Option<string>, newId: string, now: string)
    requires LinkInvariant(Archive(history, ddts))
    requires !(id.Some? && id.value != []) ==> newId !in PalletIds(history)
    ensures var r := SaveToHistory(history, sscc, lines, recipientCode, totals, id, newId, now);
      && LinkInvariant(Archive(r, ddts))
      && PalletIds(r) == if id.Some? && id.value != [] then PalletIds(history) else [newId] + PalletIds(history)
  {
    if id.Some? && id.value != [] {
      var f := EditEntry(id.value, sscc, recipientCode, lines, totals);
      MapLinks(history, f, ddts);
      MapKeepsIds(history, f);
    } else {
      PrependPreserves(history, ddts, NewEntry(newId, sscc, recipientCode, now, lines, totals));
    }
  }

  /** Putting an unlinked entry with a fresh id first keeps the link
      consistent. */
  lemma PrependPreserves(history: seq<PalletHistory>, ddts: seq<MasterDdt>, e: PalletHistory)
    requires LinkInvariant(Archive(history, ddts))
    requires e.ddtId == None && e.id !in PalletIds(history)
    ensures LinkInvariant(Archive([e] + history, ddts))
    ensures PalletIds([e] + history) == [e.id] + PalletIds(history)
  {
    var r := [e] + history;
    PalletIdsCons(e, history);
    forall p, d | p in r && d in ddts ensures p.ddtId == Some(d.id) <==> p.id in d.palletIds {
      if p == e {
        assert e.id !in d.palletIds;
      }
    }
    forall p, q | p in r && q in r && p.id == q.id ensures p == q {
      if p == e || q == e {
        assert p in history ==> p.id in PalletIds(history);
        assert q in history ==> q.id in PalletIds(history);
      }
    }
  }

  /** The id list of a history with an entry put first. */
  lemma PalletIdsCons(e: PalletHistory, history: seq<PalletHistory>)
    ensures PalletIds([e] + history) == [e.id] + PalletIds(history)
  {
    var r := [e] + history;
    assert forall i :: 0 < i < |r| ==> r[i] == history[i - 1];
  }

  // ---------------------------------------------------------------------
  // deletePallet

  /** A pallet linked to a document stays; otherwise, once confirmed,
      exactly the entries with the id are dropped and the rest keep their
      order; without confirmation nothing changes. */
  lemma DeletePalletSpec(history: seq<PalletHistory>, id: string, confirmed: bool)
    ensures var r := DeletePallet(history, id, confirmed);
      var found := FindPallet(history, id);
      && (!confirmed || (found.Some? && HasDdt(found.value)) ==> r == history)
      && (confirmed && !(found.Some? && HasDdt(found.value)) ==>
            && |r| <= |history|
            && (forall p :: p in r <==> p in history && p.id != id)
            && (forall k :: 0 <= k <= |history| ==>
                  r == DropPallet(history[..k], id) + DropPallet(history[k..], id))
            && (forall i :: 0 <= i < |history| ==>
                  DropPallet([history[i]], id) == if history[i].id != id then [history[i]] else []))
  {
    FilterOrder(history, OtherPallet(id));
  }

  /** Under the link invariant a pallet that a document lists cannot be
      deleted. */
  lemma LinkedPalletKept(history: seq<PalletHistory>, ddts: seq<MasterDdt>, id: string, confirmed: bool, d: MasterDdt)
    requires LinkInvariant(Archive(history, ddts))
    requires d in ddts && id in d.palletIds
    ensures DeletePallet(history, id, confirmed) == history
  {
    assert id in PalletIds(history);
    var p :| p in history && p.id == id;
    var found := FindPallet(history, id);
    assert found.Some? && found.value == p;
    assert p.ddtId == Some(d.id) && d.id != [];
  }

  /** Deleting a pallet keeps the link consistent. */
  lemma DeletePalletPreserves(history: seq<PalletHistory>, ddts: seq<MasterDdt>, id: string, confirmed: bool)
    requires LinkInvariant(Archive(history, ddts))
    ensures LinkInvariant(Archive(DeletePallet(history, id, confirmed), ddts))
  {
    var r := DeletePallet(history, id, confirmed);
    if d :| d in ddts && id in d.palletIds {
      LinkedPalletKept(history, ddts, id, confirmed, d);
    } else {
      DeletePalletSpec(history, id, confirmed);
      forall d, k | d in ddts && k in d.palletIds ensures k in PalletIds(r) {
        assert k in PalletIds(history);
        var p :| p in history && p.id == k;
        assert p in r;
      }
    }
  }

  // ---------------------------------------------------------------------
  // deleteDdt

  /** Once confirmed, the document with the id goes, every other one stays,
      and the pallets that pointed at it are released with nothing else
      about any pallet changed; without confirmation nothing changes. */
  lemma DeleteDdtSpec(a: Archive, id: string, confirmed: bool)
    ensures var r := DeleteDdt(a, id, confirmed);
      && (!confirmed ==> r == a)
      && (confirmed ==>
            && (forall d :: d in r.ddts <==> d in a.ddts && d.id != id)
            && (forall k :: 0 <= k <= |a.ddts| ==>
                  r.ddts == DropDdt(a.ddts[..k], id) + DropDdt(a.ddts[k..], id))
            && (forall i :: 0 <= i < |a.ddts| ==>
                  DropDdt([a.ddts[i]], id) == if a.ddts[i].id != id then [a.ddts[i]] else [])
            && |r.history| == |a.history|
            && forall i :: 0 <= i < |a.history| ==>
                 && r.history[i].ddtId != Some(id)
                 && r.history[i] == a.history[i].(ddtId := r.history[i].ddtId)
                 && (a.history[i].ddtId != Some(id) ==> r.history[i] == a.history[i]))
  {
    FilterOrder(a.ddts, OtherDdt(id));
  }

  /** Deleting a document keeps the link consistent. */
  lemma DeleteDdtPreserves(a: Archive, id: string, confirmed: bool)
    requires LinkInvariant(a)
    ensures LinkInvariant(DeleteDdt(a, id, confirmed))
  {
    if confirmed {
      var r := DeleteDdt(a, id, confirmed);
      var f := UnlinkFrom(id);
      assert r.history == MapHistory(a.history, f);
      assert forall d :: d in r.ddts <==> d in a.ddts && d.id != id;
      forall p | p in a.history && f(p).ddtId.Some? ensures f(p).ddtId.value in DdtIds(r.ddts) {
        var d :| d in a.ddts && d.id == p.ddtId.value;
        assert d in r.ddts;
      }
      MapLinks(a.history, f, r.ddts);
    }
  }

  // ---------------------------------------------------------------------
  // createDDT

  /** The entries of the replaced list: the new document, if its id was
      there, and every document with another id. */
  lemma ReplaceDdtMembers(ddts: seq<MasterDdt>, doc: MasterDdt)
    ensures forall d :: d in ReplaceDdt(ddts, doc) <==> (d == doc && doc.id in DdtIds(ddts)) || (d in ddts && d.id != doc.id)
  {
    var r := ReplaceDdt(ddts, doc);
    forall d | d in r
      ensures (d == doc && doc.id in DdtIds(ddts)) || (d in ddts && d.id != doc.id)
    {
      var i :| 0 <= i < |r| && r[i] == d;
      assert ddts[i] in ddts;
    }
    forall d | (d == doc && doc.id in DdtIds(ddts)) || (d in ddts && d.id != doc.id)
      ensures d in r
    {
      if d in ddts && d.id != doc.id {
        var i :| 0 <= i < |ddts| && ddts[i] == d;
        assert r[i] == d;
      } else {
        var e :| e in ddts && e.id == doc.id;
        var i :| 0 <= i < |ddts| && ddts[i] == e;
        assert r[i] == doc;
      }
    }
  }

  /** Unlinking then linking is the single map Relink. */
  lemma RelinkCompose(history: seq<PalletHistory>, selected: seq<string>, ddtId: string)
    ensures LinkSelected(Unlink(history, ddtId), selected, ddtId) == MapHistory(history, Relink(selected, ddtId))
  {
    var l := LinkSelected(Unlink(history, ddtId), selected, ddtId);
    var m := MapHistory(history, Relink(selected, ddtId));
    assert forall i :: 0 <= i < |history| ==> l[i] == m[i];
  }

  /** A selected pallet of the history is available. */
  lemma SelectedAvailable(a: Archive, draft: DdtDraft, editing: Option<MasterDdt>, newId: string, p: PalletHistory)
    requires LinkInvariant(a) && DraftReady(a, draft, editing, newId)
    requires p in a.history && p.id in draft.selected
    ensures Available(p, editing)
  {
    var q :| q in a.history && q.id == p.id && Available(q, editing);
  }

  /** The documents a new DDT joins are well formed. */
  lemma NewDocumentWellFormed(a: Archive, draft: DdtDraft, newId: string)
    requires LinkInvariant(a) && DraftReady(a, draft, None, newId)
    ensures WellFormedDdts([DraftDocument(draft, newId)] + a.ddts)
    ensures ListedExist(a.history, [DraftDocument(draft, newId)] + a.ddts)
  {
    var doc := DraftDocument(draft, newId);
    forall k | k in draft.selected ensures k in PalletIds(a.history) {
      var q :| q in a.history && q.id == k && Available(q, None);
    }
    forall d, e | d in [doc] + a.ddts && e in [doc] + a.ddts && d.id == e.id ensures d == e {
      if d == doc || e == doc {
        assert d in a.ddts ==> d.id in DdtIds(a.ddts);
        assert e in a.ddts ==> e.id in DdtIds(a.ddts);
      }
    }
  }

  /** Creating a new document from a ready draft keeps the link
      consistent. */
  lemma CreateNewPreserves(a: Archive, draft: DdtDraft, newId: string)
    requires LinkInvariant(a) && DraftReady(a, draft, None, newId)
    ensures LinkInvariant(CreateDdt(a, draft, None, newId))
  {
    if !Incomplete(draft) {
      var doc := DraftDocument(draft, newId);
      var ds := [doc] + a.ddts;
      var f := LinkTo(draft.selected, newId);
      AvailableFree(a, None);
      NewDocumentWellFormed(a, draft, newId);
      forall p, d | p in a.history && d in ds ensures f(p).ddtId == Some(d.id) <==> p.id in d.palletIds {
        if p.id in draft.selected {
          SelectedAvailable(a, draft, None, newId, p);
        } else if d == doc {
          assert p.ddtId.Some? ==> p.ddtId.value in DdtIds(a.ddts);
        }
      }
      MapLinks(a.history, f, ds);
    }
  }

  /** The documents after an edit are well formed. */
  lemma EditedDocumentWellFormed(a: Archive, draft: DdtDraft, editing: MasterDdt, newId: string)
    requires LinkInvariant(a) && DraftReady(a, draft, Some(editing), newId)
    ensures WellFormedDdts(ReplaceDdt(a.ddts, DraftDocument(draft, editing.id)))
    ensures ListedExist(a.history, ReplaceDdt(a.ddts, DraftDocument(draft, editing.id)))
  {
    var doc := DraftDocument(draft, editing.id);
    var ds := ReplaceDdt(a.ddts, doc);
    ReplaceDdtMembers(a.ddts, doc);
    var old_ :| old_ in a.ddts && old_.id == editing.id;
    assert doc.id != [];
    forall k | k in draft.selected ensures k in PalletIds(a.history) {
      var q :| q in a.history && q.id == k && Available(q, Some(editing));
    }
  }

  /** After an edit a pallet points at a document exactly when the
      document lists it. */
  lemma EditLinksAgree(a: Archive, draft: DdtDraft, editing: MasterDdt, newId: string)
    requires LinkInvariant(a) && DraftReady(a, draft, Some(editing), newId)
    ensures forall p, d :: p in a.history && d in ReplaceDdt(a.ddts, DraftDocument(draft, editing.id)) ==>
              (Relink(draft.selected, editing.id)(p).ddtId == Some(d.id) <==> p.id in d.palletIds)
  {
    var doc := DraftDocument(draft, editing.id);
    var g := Relink(draft.selected, editing.id);
    ReplaceDdtMembers(a.ddts, doc);
    AvailableFree(a, Some(editing));
    forall p, d | p in a.history && d in ReplaceDdt(a.ddts, doc) ensures g(p).ddtId == Some(d.id) <==> p.id in d.palletIds {
      if p.id in draft.selected {
        SelectedAvailable(a, draft, Some(editing), newId, p);
      }
    }
  }

  /** After an edit every link names a document of the archive. */
  lemma EditLinksExist(a: Archive, draft: DdtDraft, editing: MasterDdt, newId: string)
    requires LinkInvariant(a) && DraftReady(a, draft, Some(editing), newId)
    ensures forall p :: p in a.history && Relink(draft.selected, editing.id)(p).ddtId.Some? ==>
              Relink(draft.selected, editing.id)(p).ddtId.value in DdtIds(ReplaceDdt(a.ddts, DraftDocument(draft, editing.id)))
  {
    var doc := DraftDocument(draft, editing.id);
    var ds := ReplaceDdt(a.ddts, doc);
    var g := Relink(draft.selected, editing.id);
    ReplaceDdtMembers(a.ddts, doc);
    forall p | p in a.history && g(p).ddtId.Some? ensures g(p).ddtId.value in DdtIds(ds) {
      if p.id !in draft.selected {
        assert g(p) == p && p.ddtId.Some? && p.ddtId.value != editing.id;
        var d :| d in a.ddts && d.id == p.ddtId.value;
        assert d in ds;
      } else {
        assert doc in ds;
      }
    }
  }

  /** Saving an edited document from a ready draft keeps the link
      consistent. */
  lemma CreateEditPreserves(a: Archive, draft: DdtDraft, editing: MasterDdt, newId: string)
    requires LinkInvariant(a) && DraftReady(a, draft, Some(editing), newId)
    ensures LinkInvariant(CreateDdt(a, draft, Some(editing), newId))
  {
    if !Incomplete(draft) {
      var doc := DraftDocument(draft, editing.id);
      RelinkCompose(a.history, draft.selected, editing.id);
      EditedDocumentWellFormed(a, draft, editing, newId);
      EditLinksAgree(a, draft, editing, newId);
      EditLinksExist(a, draft, editing, newId);
      MapLinks(a.history, Relink(draft.selected, editing.id), ReplaceDdt(a.ddts, doc));
    }
  }

  /** `createDDT` keeps the link consistent whenever the draft is ready. */
  lemma CreateDdtPreserves(a: Archive, draft: DdtDraft, editing: Option<MasterDdt>, newId: string)
    requires LinkInvariant(a) && DraftReady(a, draft, editing, newId)
    ensures LinkInvariant(CreateDdt(a, draft, editing, newId))
  {
    if editing.Some? {
      CreateEditPreserves(a, draft, editing.value, newId);
    } else {
      CreateNewPreserves(a, draft, newId);
    }
  }

  /** An incomplete draft changes nothing. Otherwise the selected pallets
      point at the document's id and keep everything else; when editing,
      the unselected pallets that pointed at it are released; every other
      pallet is unchanged. A new document is put first, carrying the
      draft's fields and the selection's length as its count; an edited
      one replaces the document with its id. */
  lemma CreateDdtSpec(a: Archive, draft: DdtDraft, editing: Option<MasterDdt>, newId: string)
    ensures var r := CreateDdt(a, draft, editing, newId);
      var id := if editing.Some? then editing.value.id else newId;
      && (Incomplete(draft) ==> r == a)
      && (!Incomplete(draft) ==>
            && |r.history| == |a.history|
            && (forall i :: 0 <= i < |a.history| ==>
                  && r.history[i] == a.history[i].(ddtId := r.history[i].ddtId)
                  && (a.history[i].id in draft.selected ==> r.history[i].ddtId == Some(id))
                  && (a.history[i].id !in draft.selected ==>
                        r.history[i].ddtId == if editing.Some? && a.history[i].ddtId == Some(id) then None else a.history[i].ddtId))
            && (editing.None? ==>
                  && r.ddts == [DraftDocument(draft, newId)] + a.ddts
                  && r.ddts[0].palletIds == draft.selected && r.ddts[0].palletCount == |draft.selected|)
            && (editing.Some? ==>
                  && |r.ddts| == |a.ddts|
                  && (forall i :: 0 <= i < |a.ddts| ==>
                        r.ddts[i] == if a.ddts[i].id == id then DraftDocument(draft, id) else a.ddts[i])
                  && forall d :: d in r.ddts <==> (d == DraftDocument(draft, id) && id in DdtIds(a.ddts)) || (d in a.ddts && d.id != id)))
  {
    if !Incomplete(draft) && editing.Some? {
      RelinkCompose(a.history, draft.selected, editing.value.id);
      ReplaceDdtMembers(a.ddts, DraftDocument(draft, editing.value.id));
    }
  }

  // ---------------------------------------------------------------------
  // Selection on the DDT page

  /** Toggling flips the clicked id's membership and no other, and never
      repeats an id. */
  lemma ToggleSpec(selected: seq<string>, id: string)
    ensures id in Toggle(selected, id) <==> id !in selected
    ensures forall k :: k != id ==> (k in Toggle(selected, id) <==> k in selected)
    ensures NoDup(selected) ==> NoDup(Toggle(selected, id))
  {
    if NoDup(selected) {
      if id in selected {
        FilterNoDup(selected, (k: string) => k != id);
      } else {
        var r := selected + [id];
        forall i, j | 0 <= i < j < |r| ensures r[i] != r[j] {
          if j == |selected| {
            assert r[i] == selected[i] && selected[i] in selected;
          }
        }
      }
    }
  }

  /** Clicking twice restores the selection's contents, and its order when
      the id was not selected. */
  lemma ToggleTwice(selected: seq<string>, id: string)
    ensures forall k :: k in Toggle(Toggle(selected, id), id) <==> k in selected
    ensures id !in selected ==> Toggle(Toggle(selected, id), id) == selected
  {
    ToggleSpec(selected, id);
    ToggleSpec(Toggle(selected, id), id);
    if id !in selected {
      var r := selected + [id];
      assert r[..|r| - 1] == selected;
      FilterKeepsAll(selected, (k: string) => k != id);
    }
  }

  /** A saved pallet keeps the selection ready: entries keep their ids and
      links. */
  lemma SaveKeepsSelection(history: seq<PalletHistory>, ddts: seq<MasterDdt>, selected: seq<string>,
                           editing: Option<MasterDdt>, sscc: string, lines: seq<PalletLine>,
                           recipientCode: string, totals: WeightTotals, id: Option<string>, newId: string, now: string)
    requires SelectionReady(Archive(history, ddts), selected, editing)
    ensures SelectionReady(Archive(SaveToHistory(history, sscc, lines, recipientCode, totals, id, newId, now), ddts), selected, editing)
  {
    var r := SaveToHistory(history, sscc, lines, recipientCode, totals, id, newId, now);
    forall k | k in selected ensures exists q :: q in r && q.id == k && Available(q, editing) {
      var p :| p in history && p.id == k && Available(p, editing);
      if id.Some? && id.value != [] {
        var f := EditEntry(id.value, sscc, recipientCode, lines, totals);
        MapMembers(history, f);
        assert f(p) in r && f(p).id == k && f(p).ddtId == p.ddtId;
      } else {
        assert p in r;
      }
    }
  }

  /** Deleting a pallet and dropping it from the selection keeps the
      selection ready. */
  lemma DeletePalletKeepsSelection(a: Archive, selected: seq<string>, editing: Option<MasterDdt>, id: string, confirmed: bool)
    requires SelectionReady(a, selected, editing)
    ensures SelectionReady(Archive(DeletePallet(a.history, id, confirmed), a.ddts),
                           if Deletes(a.history, id, confirmed) then Deselect(selected, id) else selected, editing)
  {
    if Deletes(a.history, id, confirmed) {
      var r := DeletePallet(a.history, id, confirmed);
      var s := Deselect(selected, id);
      FilterNoDup(selected, (k: string) => k != id);
      forall k | k in s ensures exists q :: q in r && q.id == k && Available(q, editing) {
        var p :| p in a.history && p.id == k && Available(p, editing);
        assert p in r;
      }
    }
  }

  /** Deleting a document other than the one being edited keeps the
      selection ready: unlinking only frees pallets. */
  lemma DeleteDdtKeepsSelection(a: Archive, selected: seq<string>, editing: Option<MasterDdt>, id: string, confirmed: bool)
    requires SelectionReady(a, selected, editing)
    requires editing.Some? ==> editing.value.id != id
    ensures SelectionReady(DeleteDdt(a, id, confirmed), selected, editing)
  {
    if confirmed {
      var r := DeleteDdt(a, id, confirmed);
      var f := UnlinkFrom(id);
      MapMembers(a.history, f);
      forall k | k in selected ensures exists q :: q in r.history && q.id == k && Available(q, editing) {
        var p :| p in a.history && p.id == k && Available(p, editing);
        assert f(p) in r.history && Available(f(p), editing);
      }
      if editing.Some? {
        var d :| d in a.ddts && d.id == editing.value.id;
        assert d in r.ddts;
      }
    }
  }

  /** `startEditDdt` loads a ready selection: the document's own pallets,
      each linked to it. */
  lemma StartEditReady(a: Archive, d: MasterDdt)
    requires LinkInvariant(a) && d in a.ddts
    ensures SelectionReady(a, d.palletIds, Some(d))
  {
    forall k | k in d.palletIds ensures exists q :: q in a.history && q.id == k && Available(q, Some(d)) {
      assert k in PalletIds(a.history);
      var q :| q in a.history && q.id == k;
      assert q.ddtId == Some(d.id);
    }
  }

  /** Clicking a pallet the page offers keeps the selection ready. */
  lemma ToggleKeepsSelection(a: Archive, selected: seq<string>, editing: Option<MasterDdt>, recipientCode: string, id: string)
    requires SelectionReady(a, selected, editing)
    requires id !in selected ==> id in PalletIds(Selectable(a.history, recipientCode, editing))
    ensures SelectionReady(a, Toggle(selected, id), editing)
  {
    ToggleSpec(selected, id);
    if id !in selected {
      var q :| q in Selectable(a.history, recipientCode, editing) && q.id == id;
      assert q in a.history && Available(q, editing);
    }
  }

  // ---------------------------------------------------------------------
  // Sequences of page actions that break the link

  /** Empty carrier fields. */
  function BlankTransport(): Transport {
    Transport("", "", "", "", "", "", "", "")
  }

  /** Pallet "p" of recipient "r", linked as given. */
  function PalletP(ddtId: Option<string>): PalletHistory {
    PalletHistory("p", "", "r", "", [], ddtId, 0, 0, 0)
  }

  /** Document "d" for recipient "r", listing pallet "p". */
  function DocumentD(): MasterDdt {
    MasterDdt("d", "001/2025", "2025-01-01", "r", ["p"], BlankTransport(), 1)
  }

  /** The draft `startEditDdt(DocumentD())` loads. */
  function DraftOfD(): DdtDraft {
    DdtDraft("r", "001/2025", "2025-01-01", BlankTransport(), ["p"])
  }

  /** A document listing an id the history lacks breaks ListedExist. */
  lemma ListedMissing(history: seq<PalletHistory>, ddts: seq<MasterDdt>, d: MasterDdt, k: string)
    requires d in ddts && k in d.palletIds && k !in PalletIds(history)
    ensures !ListedExist(history, ddts)
  {
  }

  /** The sample archive: "p" on document "d". */
  lemma SampleLinked()
    ensures LinkInvariant(Archive([PalletP(Some("d"))], [DocumentD()]))
    ensures SelectionReady(Archive([PalletP(Some("d"))], [DocumentD()]), DraftOfD().selected, Some(DocumentD()))
  {
    assert PalletIds([PalletP(Some("d"))]) == ["p"];
    assert DdtIds([DocumentD()]) == ["d"];
  }

  /** "Svuota Archivio" (`setHistory([])`) leaves the documents listing
      pallets that no longer exist. */
  lemma ClearHistoryBreaks()
    ensures LinkInvariant(Archive([PalletP(Some("d"))], [DocumentD()]))
    ensures !ListedExist([], [DocumentD()])
  {
    SampleLinked();
    ListedMissing([], [DocumentD()], DocumentD(), "p");
  }

  /** Deleting "d" releases "p" and leaves no document. */
  lemma DeleteSampleDocument()
    ensures DeleteDdt(Archive([PalletP(Some("d"))], [DocumentD()]), "d", true) == Archive([PalletP(None)], [])
  {
    var b := DeleteDdt(Archive([PalletP(Some("d"))], [DocumentD()]), "d", true);
    assert b.history[0] == PalletP(None);
    FirstIn(b.ddts);
  }

  /** Saving the edit of "d" with no document "d" left relinks "p" and adds
      no document. */
  lemma SaveEditOfMissingDocument()
    ensures CreateDdt(Archive([PalletP(None)], []), DraftOfD(), Some(DocumentD()), "x") == Archive([PalletP(Some("d"))], [])
  {
    var c := CreateDdt(Archive([PalletP(None)], []), DraftOfD(), Some(DocumentD()), "x");
    RelinkCompose([PalletP(None)], DraftOfD().selected, "d");
    assert c.history[0] == PalletP(Some("d"));
  }

  /** Deleting the document being edited leaves the edit open, and saving
      the draft then links the pallets to the deleted document's id while
      no document carries it. */
  lemma EditOfDeletedDdtDangles()
    ensures LinkInvariant(Archive([PalletP(Some("d"))], [DocumentD()]))
    ensures SelectionReady(Archive([PalletP(Some("d"))], [DocumentD()]), DraftOfD().selected, Some(DocumentD()))
    ensures DeleteDdt(Archive([PalletP(Some("d"))], [DocumentD()]), "d", true) == Archive([PalletP(None)], [])
    ensures CreateDdt(Archive([PalletP(None)], []), DraftOfD(), Some(DocumentD()), "x") == Archive([PalletP(Some("d"))], [])
    ensures !NoDangling([PalletP(Some("d"))], [])
  {
    SampleLinked();
    DeleteSampleDocument();
    SaveEditOfMissingDocument();
    assert PalletP(Some("d")) in [PalletP(Some("d"))];
    assert DdtIds([]) == [];
  }

  /** The free sample: "p" unlinked, no document, "p" selected. */
  lemma FreeSampleReady()
    ensures LinkInvariant(Archive([PalletP(None)], []))
    ensures DraftReady(Archive([PalletP(None)], []), DraftOfD(), None, "d")
  {
    assert PalletIds([PalletP(None)]) == ["p"];
    assert DdtIds([]) == [];
  }

  /** Deleting the free "p" empties the history. */
  lemma DeleteSamplePallet()
    ensures DeletePallet([PalletP(None)], "p", true) == []
  {
    var r := DeletePallet([PalletP(None)], "p", true);
    FirstIn(r);
  }

  /** Deleting a selected pallet from the archive view leaves it selected,
      and creating the document then lists a pallet that no longer
      exists. */
  lemma CreateAfterDeletedSelectionLists()
    ensures LinkInvariant(Archive([PalletP(None)], []))
    ensures DraftReady(Archive([PalletP(None)], []), DraftOfD(), None, "d")
    ensures DeletePallet([PalletP(None)], "p", true) == []
    ensures CreateDdt(Archive([], []), DraftOfD(), None, "d") == Archive([], [DocumentD()])
    ensures !ListedExist([], [DocumentD()])
  {
    FreeSampleReady();
    DeleteSamplePallet();
    ListedMissing([], [DocumentD()], DocumentD(), "p");
  }
}
