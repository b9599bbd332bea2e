/** The shipment archive of src/App.tsx as pure transitions: the pallet
    history, the transport documents (DDT) and the link between them,
    each pallet's `ddtId` naming the document whose `palletIds` list it. */
module Shipments {
  import opened Base
  import opened Records
  import opened Weights

  /** The archive `App` keeps: saved pallets, newest first, and DDTs. */
  datatype Archive = Archive(history: seq<PalletHistory>, ddts: seq<MasterDdt>)

  /** The DDT fields being edited on the DDT page. */
  datatype DdtDraft = DdtDraft(
    recipientCode: string,
    number: string,
    date: string,
    transport: Transport,
    selected: seq<string>)

  /** JavaScript truthiness of `p.ddtId`. */
  predicate HasDdt(p: PalletHistory) {
    p.ddtId.Some? && p.ddtId.value != []
  }

  /** `history.map(h => h.id)`. */
  function PalletIds(history: seq<PalletHistory>): (r: seq<string>)
    ensures forall p :: p in history ==> p.id in r
    ensures forall k :: k in r ==> exists p :: p in history && p.id == k
  {
    var r := seq(|history|, i requires 0 <= i < |history| => history[i].id);
    assert forall k :: k in r ==> exists i :: 0 <= i < |history| && history[i].id == k && history[i] in history;
    assert forall i :: 0 <= i < |history| ==> r[i] == history[i].id && r[i] in r;
    r
  }

  /** `ddts.map(d => d.id)`. */
  function DdtIds(ddts: seq<MasterDdt>): (r: seq<string>)
    ensures forall d :: d in ddts ==> d.id in r
    ensures forall k :: k in r ==> exists d :: d in ddts && d.id == k
  {
    var r := seq(|ddts|, i requires 0 <= i < |ddts| => ddts[i].id);
    assert forall k :: k in r ==> exists i :: 0 <= i < |ddts| && ddts[i].id == k && ddts[i] in ddts;
    assert forall i :: 0 <= i < |ddts| ==> r[i] == ddts[i].id && r[i] in r;
    r
  }

  /** A pallet points at a document exactly when the document lists it. */
  predicate PointsIff(history: seq<PalletHistory>, ddts: seq<MasterDdt>) {
    forall p, d :: p in history && d in ddts ==> (p.ddtId == Some(d.id) <==> p.id in d.palletIds)
  }

  /** No pallet points at a missing document. */
  predicate NoDangling(history: seq<PalletHistory>, ddts: seq<MasterDdt>) {
    forall p :: p in history && p.ddtId.Some? ==> p.ddtId.value in DdtIds(ddts)
  }

  /** Every pallet a document lists is in the history. */
  predicate ListedExist(history: seq<PalletHistory>, ddts: seq<MasterDdt>) {
    forall d, k :: d in ddts && k in d.palletIds ==> k in PalletIds(history)
  }

  /** Document ids are non-empty and identify documents; a document lists
      no pallet twice and its `palletCount` is the number it lists. */
  predicate WellFormedDdts(ddts: seq<MasterDdt>) {
    && (forall d :: d in ddts ==> d.id != [] && NoDup(d.palletIds) && d.palletCount == |d.palletIds|)
    && (forall d, e :: d in ddts && e in ddts && d.id == e.id ==> d == e)
  }

  /** Ids identify pallets. */
  predicate UniquePalletIds(history: seq<PalletHistory>) {
    forall p, q :: p in history && q in history && p.id == q.id ==> p == q
  }

  /** The pallet/document link is consistent. */
  predicate LinkInvariant(a: Archive) {
    && PointsIff(a.history, a.ddts)
    && NoDangling(a.history, a.ddts)
    && ListedExist(a.history, a.ddts)
    && WellFormedDdts(a.ddts)
    && UniquePalletIds(a.history)
  }

  /** `history.map(f)`. */
  function MapHistory(history: seq<PalletHistory>, f: PalletHistory -> PalletHistory): (r: seq<PalletHistory>)
    ensures |r| == |history|
    ensures forall i :: 0 <= i < |history| ==> r[i] == f(history[i])
  {
    seq(|history|, i requires 0 <= i < |history| => f(history[i]))
  }

  /** The entries of a mapped history are the images of the entries. */
  lemma MapMembers(history: seq<PalletHistory>, f: PalletHistory -> PalletHistory)
    ensures forall p :: p in history ==> f(p) in MapHistory(history, f)
    ensures forall q :: q in MapHistory(history, f) ==> exists p :: p in history && q == f(p)
  {
    var r := MapHistory(history, f);
    assert forall i :: 0 <= i < |history| ==> history[i] in history && r[i] in r;
  }

  /** A map that keeps ids keeps the id list. */
  lemma MapKeepsIds(history: seq<PalletHistory>, f: PalletHistory -> PalletHistory)
    requires forall p :: p in history ==> f(p).id == p.id
    ensures PalletIds(MapHistory(history, f)) == PalletIds(history)
  {
    var r := MapHistory(history, f);
    assert forall i :: 0 <= i < |history| ==> history[i] in history;
    assert forall i :: 0 <= i < |history| ==> PalletIds(r)[i] == PalletIds(history)[i];
  }

  /** A map over the history that keeps ids gives a consistent archive with
      `ddts` when the mapped links agree with the documents' lists. */
  lemma MapLinks(history: seq<PalletHistory>, f: PalletHistory -> PalletHistory, ddts: seq<MasterDdt>)
    requires UniquePalletIds(history)
    requires forall p :: p in history ==> f(p).id == p.id
    requires forall p, d :: p in history && d in ddts ==> (f(p).ddtId == Some(d.id) <==> p.id in d.palletIds)
    requires forall p :: p in history && f(p).ddtId.Some? ==> f(p).ddtId.value in DdtIds(ddts)
    requires ListedExist(history, ddts)
    requires WellFormedDdts(ddts)
    ensures LinkInvariant(Archive(MapHistory(history, f), ddts))
  {
    var r := MapHistory(history, f);
    MapMembers(history, f);
    MapKeepsIds(history, f);
    forall q, d | q in r && d in ddts ensures q.ddtId == Some(d.id) <==> q.id in d.palletIds {
      var p :| p in history && q == f(p);
    }
    forall q | q in r && q.ddtId.Some? ensures q.ddtId.value in DdtIds(ddts) {
      var p :| p in history && q == f(p);
    }
    forall q1, q2 | q1 in r && q2 in r && q1.id == q2.id ensures q1 == q2 {
      var p1 :| p1 in history && q1 == f(p1);
      var p2 :| p2 in history && q2 == f(p2);
    }
  }

  // ---------------------------------------------------------------------
  // saveToHistory

  /** The edited entry: new SSCC, recipient, lines and totals; its id,
      date and DDT link stay. */
  function UpdateEntry(h: PalletHistory, sscc: string, recipientCode: string,
                       lines: seq<PalletLine>, totals: WeightTotals): PalletHistory {
    h.(sscc := sscc, recipientCode := recipientCode, lines := lines,
       totalNetWeight := totals.net, totalGrossWeight := totals.gross, totalTare := totals.lineTare)
  }

  /** A new entry, not linked to any DDT. */
  function NewEntry(id: string, sscc: string, recipientCode: string, date: string,
                    lines: seq<PalletLine>, totals: WeightTotals): PalletHistory {
    PalletHistory(id, sscc, recipientCode, date, lines, None, totals.net, totals.gross, totals.lineTare)
  }

  /** The per-entry update of an edit: the entry with the id changes. */
  function EditEntry(id: string, sscc: string, recipientCode: string,
                     lines: seq<PalletLine>, totals: WeightTotals): PalletHistory -> PalletHistory {
    (h: PalletHistory) => if h.id == id then UpdateEntry(h, sscc, recipientCode, lines, totals) else h
  }

  /** `saveToHistory`: with a (truthy) `id` the entries with that id are
      updated in place; otherwise a new entry with id `newId` and date
      `now` is put first. */
  function SaveToHistory(history: seq<PalletHistory>, sscc: string, lines: seq<PalletLine>,
                         recipientCode: string, totals: WeightTotals, id: Option<string>,
                         newId: string, now: string): seq<PalletHistory> {
    if id.Some? && id.value != [] then
      MapHistory(history, EditEntry(id.value, sscc, recipientCode, lines, totals))
    else [NewEntry(newId, sscc, recipientCode, now, lines, totals)] + history
  }

  // ---------------------------------------------------------------------
  // deletePallet, deleteDdt

  function PalletId(p: PalletHistory): string { p.id }

  /** `history.find(p => p.id === id)`. */
  function FindPallet(history: seq<PalletHistory>, id: string): Option<PalletHistory> {
    Find(history, id, PalletId)
  }

  /** `deletePallet`: a pallet linked to a DDT is kept; otherwise, once
      confirmed, every entry with that id is dropped. */
  function DeletePallet(history: seq<PalletHistory>, id: string, confirmed: bool): seq<PalletHistory> {
    var pallet := FindPallet(history, id);
    if pallet.Some? && HasDdt(pallet.value) then history
    else if confirmed then DropPallet(history, id)
    else history
  }

  /** `history.filter(p => p.id !== id)`. */
  function DropPallet(history: seq<PalletHistory>, id: string): seq<PalletHistory> {
    Filter(history, OtherPallet(id))
  }

  /** `p => p.id !== id`. */
  function OtherPallet(id: string): PalletHistory -> bool {
    (p: PalletHistory) => p.id != id
  }

  /** `p.ddtId === ddtId ? { ...p, ddtId: undefined } : p`. */
  function UnlinkFrom(ddtId: string): PalletHistory -> PalletHistory {
    (p: PalletHistory) => if p.ddtId == Some(ddtId) then p.(ddtId := None) else p
  }

  /** Clears the link of the pallets pointing at `ddtId`. */
  function Unlink(history: seq<PalletHistory>, ddtId: string): seq<PalletHistory> {
    MapHistory(history, UnlinkFrom(ddtId))
  }

  /** `deleteDdt`: once confirmed, the document goes and its pallets
      become free again. */
  function DeleteDdt(a: Archive, id: string, confirmed: bool): Archive {
    if confirmed then Archive(Unlink(a.history, id), DropDdt(a.ddts, id))
    else a
  }

  /** `ddts.filter(d => d.id !== id)`. */
  function DropDdt(ddts: seq<MasterDdt>, id: string): seq<MasterDdt> {
    Filter(ddts, OtherDdt(id))
  }

  /** `d => d.id !== id`. */
  function OtherDdt(id: string): MasterDdt -> bool {
    (d: MasterDdt) => d.id != id
  }

  // ---------------------------------------------------------------------
  // createDDT

  /** `selectedPalletIds.includes(p.id) ? { ...p, ddtId } : p`. */
  function LinkTo(selected: seq<string>, ddtId: string): PalletHistory -> PalletHistory {
    (p: PalletHistory) => if p.id in selected then p.(ddtId := Some(ddtId)) else p
  }

  /** Points the selected pallets at `ddtId`. */
  function LinkSelected(history: seq<PalletHistory>, selected: seq<string>, ddtId: string): seq<PalletHistory> {
    MapHistory(history, LinkTo(selected, ddtId))
  }

  /** The two maps of an edited document as one: the selected pallets
      point at `ddtId`, the others that did are released. */
  function Relink(selected: seq<string>, ddtId: string): PalletHistory -> PalletHistory {
    (p: PalletHistory) =>
      if p.id in selected then p.(ddtId := Some(ddtId))
      else if p.ddtId == Some(ddtId) then p.(ddtId := None)
      else p
  }

  /** `ddts.map(d => d.id === doc.id ? doc : d)`. */
  function ReplaceDdt(ddts: seq<MasterDdt>, doc: MasterDdt): seq<MasterDdt> {
    seq(|ddts|, i requires 0 <= i < |ddts| => if ddts[i].id == doc.id then doc else ddts[i])
  }

  /** The document `createDDT` builds. */
  function DraftDocument(draft: DdtDraft, id: string): MasterDdt {
    MasterDdt(id, draft.number, draft.date, draft.recipientCode, draft.selected, draft.transport, |draft.selected|)
  }

  /** The draft lacks a recipient, a number or a pallet. */
  predicate Incomplete(draft: DdtDraft) {
    draft.recipientCode == [] || draft.number == [] || |draft.selected| == 0
  }

  /** `createDDT`: an incomplete draft changes nothing. When editing, the
      document with the edited id is replaced, its pallets are released
      and the selected ones linked; otherwise a new document with id
      `newId` is put first and the selected pallets linked to it. */
  function CreateDdt(a: Archive, draft: DdtDraft, editing: Option<MasterDdt>, newId: string): Archive {
    if Incomplete(draft) then a
    else if editing.Some? then
      var doc := DraftDocument(draft, editing.value.id);
      Archive(LinkSelected(Unlink(a.history, doc.id), draft.selected, doc.id), ReplaceDdt(a.ddts, doc))
    else
      var doc := DraftDocument(draft, newId);
      Archive(LinkSelected(a.history, draft.selected, doc.id), [doc] + a.ddts)
  }

  // ---------------------------------------------------------------------
  // Pallet selection on the DDT page

  /** A pallet free to go on the draft: unlinked, or linked to the
      document being edited. */
  predicate Available(p: PalletHistory, editing: Option<MasterDdt>) {
    !HasDdt(p) || (editing.Some? && p.ddtId == Some(editing.value.id))
  }

  /** The pallets the DDT page offers: the available ones of the chosen
      recipient. */
  function Selectable(history: seq<PalletHistory>, recipientCode: string, editing: Option<MasterDdt>): seq<PalletHistory> {
    Filter(history, (p: PalletHistory) => p.recipientCode == recipientCode && Available(p, editing))
  }

  /** `selectedPalletIds.filter(k => k !== id)`. */
  function Deselect(selected: seq<string>, id: string): seq<string> {
    Filter(selected, (k: string) => k != id)
  }

  /** Clicking a pallet: deselects it when selected, else appends it. */
  function Toggle(selected: seq<string>, id: string): seq<string> {
    if id in selected then Deselect(selected, id) else selected + [id]
  }

  /** `deletePallet` goes ahead: confirmed, and the pallet found first is
      not linked. */
  predicate Deletes(history: seq<PalletHistory>, id: string, confirmed: bool) {
    var pallet := FindPallet(history, id);
    confirmed && !(pallet.Some? && HasDdt(pallet.value))
  }
}
