# GS1 pallet labels and transport documents, modelled in Dafny

The application is a React single-page tool for a produce exporter. It
composes pallets from lines (article, batch, colli, packaging, pallet
bases, weights), prints a GS1-128 logistic label for each pallet under an
SSCC, keeps an archive of the pallets it has labelled, and groups archived
pallets of one recipient onto Italian transport documents (DDT). This
project models the deterministic core of that tool:

- the GS1 mod-10 check digit in its three hand-written copies, the two SSCC
  builders (the dashboard preview and the one printed on the label) and the
  two GTIN normalizers (modules `CheckDigit`, `Sscc`, `Gtin`);
- the per-line weight rule and the page totals (module `Weights`) and the
  composition page that edits the lines (module `Composition`, class
  `PalletComposition`);
- the GS1-128 element string of the label (module `Payload`);
- the article form's validation chain (module `Articles`);
- the shipment archive: saving, deleting and linking pallets and DDTs, the
  DDT page's selection and number suggestion, and the master-data saves
  (modules `Shipments`, `ShipmentLaws`, `DdtNumber`, `MasterData`, and the
  class `Ledger.ShipmentLedger` that holds the application state).

Weights and tares are integers in hundredths of a kilogram, so the
source's `parseFloat`, `toFixed(2)` and `Math.round(x * 100)` are exact on
them. Generated UUIDs, the current date and time and the answer to
`confirm()` are parameters. `Option` stands for `null`/`undefined`, and for
`NaN` where `parseInt` fails.

The central invariant of the archive is `Shipments.LinkInvariant`. A
pallet's `ddtId` names a document exactly when that document lists the
pallet. No pallet points at a missing document. Every listed pallet
exists. Ids are unique. Each `palletCount` equals the number of pallets
listed. `ShipmentLedger.Valid()` adds the DDT page's selection
(`ShipmentLaws.SelectionReady`): no id twice, each naming an available
pallet, and the edited document still present.

The SSCC shown on the dashboard (with extension digit 0) is not the SSCC
printed on the label and saved (without it); both are modelled, and
`Sscc.PreviewDiffersFromPrinted` states that they differ.

## Model

| member | source | states |
|---|---|---|
| CheckDigit.CompletingDigit | src/pages/ArticlesPage.tsx:25 | `(10 - sum % 10) % 10` is a digit that brings the sum to a multiple of ten |
| CheckDigit.CheckDigitOf | src/App.tsx:64-77 | the GS1 check digit of a body is below 10 and completes the weighted sum (3 on the rightmost digit, alternating) to a multiple of ten |
| CheckDigit.CheckDigitUnique | src/App.tsx:64-77 | no other digit completes that sum |
| CheckDigit.CalculateCheckDigit | src/App.tsx:64-77 | the reverse-and-loop with `Math.ceil(sum / 10) * 10 - sum` returns a value in 0..9 equal to the GS1 check digit |
| CheckDigit.LeftSumOfReverse | src/App.tsx:66-74 | weighting the reversed code by even index from the left is weighting the code from the right |
| CheckDigit.AppendCheckDigit | src/App.tsx:232-234 | a body followed by its check digit is one digit longer, starts with the body and has a valid check digit |
| CheckDigit.LeftSumMatchesRight | src/pages/PalletCompositionPage.tsx:80-84 | on a digit string of odd length the left-indexed and right-indexed weightings agree |
| CheckDigit.SsccBodyLeftWeighting | src/pages/PalletCompositionPage.tsx:80-84 | on a 17-digit SSCC body the left-indexed loop of `calculateSSCC` yields the GS1 sum |
| CheckDigit.EvenLengthLeftWeightingDiffers | src/pages/PalletCompositionPage.tsx:80-86 | on an even-length body ("10") the left-indexed rule gives 7 where the GS1 rule gives 9 |
| Gtin.ReduceWeightedSum | src/pages/ArticlesPage.tsx:21-24 | the `reduce` adds the left-read weighted sum to its seed |
| Gtin.ComputeGs1CheckDigit | src/pages/ArticlesPage.tsx:19-26 | `computeGs1CheckDigit` is below 10 and equals the GS1 check digit, hence `calculateCheckDigit`'s result on every digit string |
| Strings.KeepDigits | src/pages/ArticlesPage.tsx:17 | `normalizeDigits` returns only digits, is no longer than its input and leaves a digit string unchanged |
| Strings.KeepDigitsAppend | src/pages/ArticlesPage.tsx:17 | the digits of a concatenation are the digits of the first part followed by those of the second |
| Strings.KeepDigitsSpec | src/pages/ArticlesPage.tsx:17 | every digit is kept and every other character dropped, in order: the result splits at every index of the input, and one character gives itself when a digit and nothing otherwise |
| Strings.KeepDigitsDrop | src/pages/ArticlesPage.tsx:17 | dropping a non-digit character from anywhere in the input leaves the result unchanged |
| Gtin.NonDigitIgnored | src/pages/ArticlesPage.tsx:28-30 | dropping a non-digit character from anywhere in the input changes neither `normalizeToGtin14` nor `normalizeGtin` |
| Gtin.NormalizeToGtin14Spec | src/pages/ArticlesPage.tsx:28-36 | the validator accepts exactly when the input's digits number 8, 12, 13 or 14 and end in their check digit; it then returns those digits left-padded with zeros to 14, a valid GTIN-14 |
| Gtin.WrongCheckDigitRejected | src/pages/ArticlesPage.tsx:31-34 | replacing the last digit of a valid GTIN by another digit makes the validator return null |
| Gtin.RightSumLeadingZeros | src/pages/ArticlesPage.tsx:35 | leading zeros add nothing to the weighted sum |
| Gtin.PaddedCodeValid | src/pages/ArticlesPage.tsx:35 | zero-padding a valid code keeps its check digit valid |
| Gtin.NormalizeToGtin14OfGtin14 | src/pages/ArticlesPage.tsx:28-36 | a valid 14-digit GTIN is returned unchanged |
| Gtin.NormalizeToGtin14Idempotent | src/pages/ArticlesPage.tsx:28-36 | normalizing a returned GTIN-14 again returns it unchanged |
| Gtin.Gtin13RoundTrip | src/pages/ArticlesPage.tsx:28-36 | a valid GTIN-13 comes back as "0" followed by it |
| Gtin.NormalizeGtin | src/pages/PalletCompositionPage.tsx:262 | `normalizeGtin` returns 14 digits: the input's digits zero-padded, or their last 14 when longer |
| Gtin.NormalizeGtinOfValidated | src/pages/PalletCompositionPage.tsx:262 | on a GTIN accepted by the validator, `normalizeGtin` is the identity |
| Sscc.CurrentSscc | src/App.tsx:229-235 | `currentSSCC` is "Manca Prefisso" exactly when the prefix is empty, otherwise digits starting with the extension digit 0 |
| Sscc.PreviewBodyShape | src/App.tsx:231-232 | the preview body is 17 digits: '0', the prefix, then the serial zero-padded to 16 minus the prefix length digits, reading back as the serial |
| Sscc.CurrentSsccShape | src/App.tsx:229-235 | with a prefix of 1 to 15 digits and a serial that fits, the preview has 18 digits, '0' then prefix then serial, and a valid check digit |
| Sscc.CalculateSscc | src/pages/PalletCompositionPage.tsx:76-88 | the loop in `calculateSSCC` returns the prefix, the serial padded to 17 minus the prefix length, and the digit completing the left-indexed sum (PrintedSscc) |
| Sscc.PrintedBodyShape | src/pages/PalletCompositionPage.tsx:77-78 | the printed body is 17 digits: the prefix, then the zero-padded serial reading back as the serial |
| Sscc.PrintedSsccShape | src/pages/PalletCompositionPage.tsx:76-88 | with a prefix below 17 digits and a serial that fits, the printed SSCC has 18 digits, prefix then serial, and a valid GS1 check digit |
| Sscc.PrintedSsccInjectiveInSerial | src/pages/PalletCompositionPage.tsx:76-88 | two serials that fit give the same printed SSCC exactly when they are equal |
| Sscc.PreviewIsPrintedWithExtension | src/App.tsx:229-235 | the preview is what `calculateSSCC` prints for the prefix with "0" put in front |
| Sscc.PreviewDiffersFromPrinted | src/App.tsx:229-235 | for every non-empty prefix not starting with 0 the preview differs from the SSCC printed for the same serial |
| Weights.Recompute | src/pages/PalletCompositionPage.tsx:222-239 | the recalculated line is balanced: fixed weight (or PZ) derives net from unit weight times count and gross from net plus line tare; otherwise net is `max(0, gross - tare)` and gross stays; only the two weights change |
| Weights.RecomputeBalanced | src/pages/PalletCompositionPage.tsx:222-239 | a balanced line is left as it is |
| Weights.RecomputeIdempotent | src/pages/PalletCompositionPage.tsx:222-239 | recalculating twice is recalculating once |
| Weights.VariableNetBounds | src/pages/PalletCompositionPage.tsx:234-238 | a variable-weight net is never negative and, with non-negative tare and gross, never above the gross |
| Weights.VariableLineExample | src/pages/PalletCompositionPage.tsx:222-239 | 10 colli at 0.60 kg tare on a 25 kg pallet weighed at 120.50 kg net 89.50 kg with 31.00 kg line tare |
| Weights.WithoutInstanceSpec | src/pages/PalletCompositionPage.tsx:157 | the filter keeps exactly the pallet instances with another id, in their order: it splits at every index, and one instance gives itself when its id differs and nothing otherwise |
| Weights.WithPalletTare | src/pages/PalletCompositionPage.tsx:111-151 | adding a pallet appends one instance with the master's id, name and tare, raises the line tare by exactly that tare, and a fixed-weight line keeps its net |
| Weights.AddThenRemovePallet | src/pages/PalletCompositionPage.tsx:111-185 | adding a pallet under a fresh instance id and removing it gives back the balanced line |
| Weights.TotalsAppend | src/pages/PalletCompositionPage.tsx:246-255 | the three totals are plain sums, additive over any split of the lines |
| Weights.TotalsBalance | src/pages/PalletCompositionPage.tsx:246-259 | on balanced lines gross total is at most net plus tare, with equality when every variable line weighs at least its tare |
| Composition.EditLineSpec | src/pages/PalletCompositionPage.tsx:187-242 | an edit keeps the line's id and pallets and the edited value; a packaging copies its tare (0 when unknown); an article with a default packaging selects it and copies its tare when found, keeping the old tare when not; every field the edit does not touch, other than the net and gross weights, is unchanged; the result is balanced and a variable line keeps its gross |
| Composition.EditIdempotent | src/pages/PalletCompositionPage.tsx:187-242 | repeating an edit with the same value changes nothing more |
| Composition.MapWhere | src/pages/PalletCompositionPage.tsx:188-189 | same length; the lines with the id are transformed, every other line is kept |
| Composition.RemoveLinesSpec | src/pages/PalletCompositionPage.tsx:107-109 | `removeLine` keeps exactly the lines with another id, in their order: it splits at every index, and one line gives itself when its id differs and nothing otherwise |
| Composition.EditThenRemove | src/pages/PalletCompositionPage.tsx:107-109 | editing a line and then removing it is removing it: the edit touches no other line |
| Composition.AddThenRemoveLine | src/pages/PalletCompositionPage.tsx:92-109 | removing a line just added under a fresh id restores the lines |
| Composition.PageSscc | src/pages/PalletCompositionPage.tsx:90 | an edited pallet keeps its non-empty SSCC; otherwise the page uses the SSCC printed for the current serial |
| Composition.PalletComposition.constructor | src/pages/PalletCompositionPage.tsx:54-73 | the page opens on the edited pallet's lines and recipient, or on one blank line dated today and no recipient |
| Composition.PalletComposition.SelectRecipient | src/pages/PalletCompositionPage.tsx:495 | only the recipient changes |
| Composition.PalletComposition.AddLine | src/pages/PalletCompositionPage.tsx:92-105 | one blank line is appended |
| Composition.PalletComposition.RemoveLine | src/pages/PalletCompositionPage.tsx:107-109 | the lines become RemoveLines of the old ones |
| Composition.PalletComposition.AddPalletToLine | src/pages/PalletCompositionPage.tsx:111-151 | an unknown pallet master changes nothing; otherwise only the target line gains the instance and is recalculated |
| Composition.PalletComposition.RemovePalletFromLine | src/pages/PalletCompositionPage.tsx:153-185 | only the target line loses the instance and is recalculated |
| Composition.PalletComposition.UpdatedLine | src/pages/PalletCompositionPage.tsx:191-240 | the field-by-field update yields EditLine of the line |
| Composition.PalletComposition.UpdateLine | src/pages/PalletCompositionPage.tsx:187-242 | the loop edits every line with the id and keeps the others, in order |
| Payload.NonEmpty | src/pages/PalletCompositionPage.tsx:265-267 | `filter(Boolean)` keeps exactly the non-empty strings |
| Payload.BuildGs1Payload | src/pages/PalletCompositionPage.tsx:264-310 | the human-readable and barcode strings are identical, render the element list of PayloadFields, and the mixed-content flag is MixedContent |
| Payload.AddGtinAndCount | src/pages/PalletCompositionPage.tsx:275-284 | both strings take the (02) step, then the (37) step inside it, as WithGtin states |
| Payload.AddWeight | src/pages/PalletCompositionPage.tsx:286-290 | both strings take the (3102) step, as WithWeight states |
| Payload.AddBatch | src/pages/PalletCompositionPage.tsx:292-295 | both strings take the (10) step, as WithBatch states |
| Payload.AddHarvestDate | src/pages/PalletCompositionPage.tsx:297-303 | both strings take the (7007) step, as WithDate states |
| Payload.TextRendersElements | src/pages/PalletCompositionPage.tsx:272-303 | the accumulated text is the rendering of the emitted elements |
| Payload.UniqueValuesSingle | src/pages/PalletCompositionPage.tsx:265-267 | the set of non-empty values is `[v]` exactly when `v` occurs and every other value is empty |
| Payload.UniqueValuesMany | src/pages/PalletCompositionPage.tsx:265-267 | the set has more than one value exactly when two non-empty values differ |
| Payload.ElementsOrdered | src/pages/PalletCompositionPage.tsx:272-303 | the elements start with (00) and the SSCC, come in strictly increasing AI order, and (37) only follows (02) |
| Payload.PayloadOrder | src/pages/PalletCompositionPage.tsx:272-303 | the payload's elements: (00) first, then 02, 37, 3102, 10, 7007 in that order, (37) only right after (02) |
| Payload.GtinElement | src/pages/PalletCompositionPage.tsx:265-278 | (02) appears exactly when the lines name one article and it has a GTIN; its data is 14 digits |
| Payload.CountElement | src/pages/PalletCompositionPage.tsx:270-283 | (37) appears exactly when (02) does and the total colli is positive; its data reads back as that total |
| Payload.WeightElement | src/pages/PalletCompositionPage.tsx:286-290 | (3102) appears exactly when the net total is positive; its data reads back as the net in hundredths, has 6 digits below 10000 kg and is never truncated |
| Payload.BatchElement | src/pages/PalletCompositionPage.tsx:292-295 | (10) carries `b` exactly when `b` is the one non-empty trimmed batch, whatever the articles |
| Payload.DateElement | src/pages/PalletCompositionPage.tsx:297-303 | (7007) appears exactly when there is one harvest date and it has 8 characters once its dashes are removed; its data is that date without dashes |
| Payload.MixedContentIff | src/pages/PalletCompositionPage.tsx:308 | `hasMixedContent` holds exactly when two lines name different articles or carry different trimmed batches |
| Payload.FormatHarvestDate | src/App.tsx:105-108 | the result of `formatHarvestDateGS1` has no dash and is no longer than the date; the application never calls it, and the (7007) datum removes the dashes inline with the same rule |
| Payload.FormatIsoDate | src/App.tsx:105-108 | an ISO date `YYYY-MM-DD` becomes the 8-digit `YYYYMMDD` |
| Payload.DateFieldFormats | src/pages/PalletCompositionPage.tsx:297-298 | the (7007) datum is the harvest-date formatter's output for the one date |
| Articles.HandleSaveSpec | src/pages/ArticlesPage.tsx:66-113 | each rejection names the first failing check in the order GTIN, origin, fixed unit weight, required fields; the article is saved exactly when all pass, with the padded valid GTIN-14, the uppercased valid origin and the trimmed code and description |
| Articles.ValidOriginNormal | src/pages/ArticlesPage.tsx:79-80 | a valid origin is already trimmed and uppercased |
| Articles.ResaveUnchanged | src/pages/ArticlesPage.tsx:66-113 | re-saving a saved article without touching the form stores the very same article |
| DdtNumber.SameYearMembers | src/App.tsx:197-198 | the filter keeps exactly the documents dated in the year |
| DdtNumber.MaxNumberIsMax | src/App.tsx:197-202 | the reduce yields a value no smaller than every number read, and it is 0 or one of them |
| DdtNumber.MaxNumberCons | src/App.tsx:197-202 | prepending a document takes the larger of its number and the rest's maximum |
| DdtNumber.SuggestionSpec | src/App.tsx:193-206 | the suggestion is at least three digits, "/" and the year; its numeric part reads back as one more than the largest same-year number |
| DdtNumber.SuggestionExceeds | src/App.tsx:193-206 | every same-year document's number is below the suggested one |
| DdtNumber.NextSuggestion | src/App.tsx:193-206 | once a document with the suggested number is added for the year, the next suggestion is one higher |
| DdtNumber.HexNumberRead | src/App.tsx:200 | `parseInt` without a radix reads a number written "0x1F" as hexadecimal 31, so a lone same-year document numbered "0x1F/" and the year makes the next number 32 |
| DdtNumber.LoneDocumentNext | src/App.tsx:197-204 | with one same-year document numbered n, the next number is n + 1 |
| Strings.ParseIntHexExample | src/App.tsx:200 | `parseInt("0x1F")` is 31 |
| Base.Find | src/App.tsx:268 | `find` returns the first element with the key: it has the key, every earlier element has another, and nothing is found exactly when no element has it |
| ShipmentLaws.AvailableFree | src/App.tsx:1100-1101 | under the link invariant an available pallet is listed by no document but the one being edited |
| ShipmentLaws.SelectableSpec | src/App.tsx:1100-1101 | the page offers exactly the available pallets of the chosen recipient |
| ShipmentLaws.SaveEditSpec | src/App.tsx:237-251 | an edit keeps the length and every entry's id, date and DDT link; the entries with the id take the new SSCC, recipient, lines and totals and the others are unchanged |
| ShipmentLaws.SaveNewSpec | src/App.tsx:252-264 | a new save puts one unlinked entry with the new id and date first and keeps the rest |
| ShipmentLaws.SaveEditIdempotent | src/App.tsx:237-251 | saving the same edit twice is saving it once |
| ShipmentLaws.SavePreserves | src/App.tsx:237-265 | saving keeps the link invariant given a fresh id for a new pallet; an edit keeps the id list, a new pallet puts its id first |
| ShipmentLaws.PrependPreserves | src/App.tsx:252-264 | putting an unlinked entry with a fresh id first keeps the link invariant |
| ShipmentLaws.DeletePalletSpec | src/App.tsx:267-276 | a linked pallet or an unconfirmed delete leaves the history unchanged; otherwise exactly the entries with the id are dropped and the others kept in their order: the result splits at every index, and one entry gives itself when its id differs and nothing otherwise |
| ShipmentLaws.LinkedPalletKept | src/App.tsx:267-276 | under the link invariant a pallet a document lists cannot be deleted |
| ShipmentLaws.DeletePalletPreserves | src/App.tsx:267-276 | deleting a pallet keeps the link invariant |
| ShipmentLaws.DeleteDdtSpec | src/App.tsx:278-283 | a confirmed delete drops exactly the documents with the id, keeping the others in their order (the result splits at every index, and one document gives itself when its id differs and nothing otherwise), and clears the link of exactly the pallets pointing at it, changing nothing else; unconfirmed, nothing changes |
| ShipmentLaws.DeleteDdtPreserves | src/App.tsx:278-283 | deleting a document keeps the link invariant |
| ShipmentLaws.ReplaceDdtMembers | src/App.tsx:326 | the replaced list holds the new document (when its id was there) and every document with another id |
| ShipmentLaws.RelinkCompose | src/App.tsx:327-334 | the two maps of an edited document (release, then link the selection) are one map |
| ShipmentLaws.CreateNewPreserves | src/App.tsx:336-341 | a new document from a ready draft keeps the link invariant |
| ShipmentLaws.CreateEditPreserves | src/App.tsx:325-335 | saving an edited document from a ready draft keeps the link invariant |
| ShipmentLaws.CreateDdtPreserves | src/App.tsx:302-351 | `createDDT` keeps the link invariant whenever the draft is ready |
| ShipmentLaws.CreateDdtSpec | src/App.tsx:302-351 | an incomplete draft changes nothing; otherwise the selected pallets point at the document, when editing the other pallets that did are released, every other pallet is unchanged; a new document goes first with the selection and its length as count; an edited one replaces, in place, the document with its id, so the list keeps its length and every other document its position |
| ShipmentLaws.ToggleSpec | src/App.tsx:1109-1114 | a click flips the clicked id's membership and no other, and never repeats an id |
| ShipmentLaws.ToggleTwice | src/App.tsx:1109-1114 | two clicks restore the selection's contents, and its order when the id was not selected |
| ShipmentLaws.SaveKeepsSelection | src/App.tsx:237-265 | saving a pallet keeps the DDT selection ready |
| ShipmentLaws.DeletePalletKeepsSelection | src/App.tsx:267-276 | deleting a pallet and dropping it from the selection keeps the selection ready |
| ShipmentLaws.DeleteDdtKeepsSelection | src/App.tsx:278-283 | deleting a document other than the edited one keeps the selection ready |
| ShipmentLaws.StartEditReady | src/App.tsx:285-300 | editing a document of the archive loads a ready selection: its own pallets |
| ShipmentLaws.ToggleKeepsSelection | src/App.tsx:1100-1114 | clicking an offered pallet keeps the selection ready |
| ShipmentLaws.ClearHistoryBreaks | src/App.tsx:1227 | "Svuota Archivio" on a consistent archive leaves a document listing a pallet that no longer exists |
| ShipmentLaws.EditOfDeletedDdtDangles | src/App.tsx:278-283 | deleting the document being edited and then saving the draft links a pallet to an id no document has |
| ShipmentLaws.CreateAfterDeletedSelectionLists | src/App.tsx:267-276 | deleting a selected pallet and then creating the document makes it list a pallet that no longer exists |
| MasterData.Upsert | src/App.tsx:773-780 | the list keeps its length when the key exists and grows by one otherwise |
| MasterData.UpsertSpec | src/App.tsx:773-780 | after a save the entry is present, is the only one with its key, and the entries with other keys are the old ones in place |
| MasterData.UpsertUnique | src/App.tsx:773-780 | a save keeps keys unique |
| MasterData.UpsertIdempotent | src/App.tsx:773-780 | saving the same entry twice is saving it once |
| MasterData.DeleteKeySpec | src/App.tsx:781-783 | a delete keeps exactly the entries with another key, in their order: the result splits at every index, and one entry gives itself when its key differs and nothing otherwise |
| MasterData.DeleteUndoesUpsert | src/App.tsx:773-783 | deleting the key of a saved entry leaves the very sequence that deleting it before the save leaves |
| Ledger.ShipmentLedger.constructor | src/App.tsx:163-190 | the stored state with an empty draft dated today, default carrier fields and nothing being edited; valid when the stored archive is consistent |
| Ledger.ShipmentLedger.EditPallet | src/App.tsx:1251-1254 | the composition page opens on the pallet; nothing else changes |
| Ledger.ShipmentLedger.SavePallet | src/pages/PalletCompositionPage.tsx:449-458 | the history becomes the `saveToHistory` of the lines and their totals, the serial grows by one for a new pallet only, the page closes, the documents, draft and master data are unchanged, and a fresh id keeps the ledger valid |
| Ledger.ShipmentLedger.GeneratePallet | src/pages/PalletCompositionPage.tsx:449-458 | with an unknown recipient nothing changes; otherwise the pallet is saved under the page's SSCC, the serial grows by one for a new pallet only, the page closes, and a fresh id keeps the ledger valid |
| Ledger.ShipmentLedger.DeletePallet | src/App.tsx:267-276 | the history becomes DeletePallet's; a deleted pallet also leaves the selection; the ledger stays valid |
| Ledger.ShipmentLedger.ClearHistory | src/App.tsx:1227 | the history is emptied and nothing else changes |
| Ledger.ShipmentLedger.SuggestNumber | src/App.tsx:193-206 | the draft number becomes the suggestion for the year; the ledger stays valid |
| Ledger.ShipmentLedger.SelectRecipient | src/App.tsx:876-880 | choosing a recipient clears the selection; the ledger stays valid |
| Ledger.ShipmentLedger.TogglePallet | src/App.tsx:1109-1114 | the selection becomes Toggle of the old one; clicking an offered pallet keeps the ledger valid |
| Ledger.ShipmentLedger.StartEditDdt | src/App.tsx:285-300 | the draft is loaded from the document and the edit starts; editing a document of the archive keeps the ledger valid |
| Ledger.ShipmentLedger.CancelEdit | src/App.tsx:853-855 | the edit ends and the number and selection are cleared |
| Ledger.ShipmentLedger.CreateDdt | src/App.tsx:302-351 | the archive takes the CreateDdt transition; a complete draft ends the edit and clears number and selection; a fresh id for a new document keeps the ledger valid |
| Ledger.ShipmentLedger.DeleteDdt | src/App.tsx:278-283 | the archive takes the DeleteDdt transition; deleting the edited document also ends the edit; the ledger stays valid |
| Ledger.ShipmentLedger.SaveArticle | src/App.tsx:773-780 | the articles become the upsert by code |
| Ledger.ShipmentLedger.DeleteArticle | src/App.tsx:781-783 | the articles lose those with the code |
| Ledger.ShipmentLedger.SavePackaging | src/App.tsx:790-797 | the packagings become the upsert by id |
| Ledger.ShipmentLedger.DeletePackaging | src/App.tsx:798-800 | the packagings lose those with the id |
| Ledger.ShipmentLedger.SavePalletMaster | src/App.tsx:807-814 | the pallet types become the upsert by id |
| Ledger.ShipmentLedger.DeletePalletMaster | src/App.tsx:815-817 | the pallet types lose those with the id |
| Ledger.ShipmentLedger.SaveRecipient | src/App.tsx:824-831 | the recipients become the upsert by code |
| Ledger.ShipmentLedger.DeleteRecipient | src/App.tsx:832-834 | the recipients lose those with the code |

## Left out

- PDF generation (`generateDdtPDF`, the drawing part of `generatePDF`), barcode rasterization and `alert`/`setWarning` messages: foreign library calls and user interface.
- Loading from and syncing to `localStorage`: I/O; the ledger's constructor takes the stored values.
- `formatDateGS1`, `formatHarvestDateGS1` and `formatWeightAI` (src/App.tsx:93, 105, 83): none of them is called anywhere in the application; the label's (7007) datum removes the dashes itself (src/pages/PalletCompositionPage.tsx:298) and its (3102) datum pads the net itself. `formatDateGS1` also depends on the JavaScript `Date` and the local time zone, so it is not modelled; `formatHarvestDateGS1` is modelled as Payload.FormatHarvestDate because it states the same dash-removal rule.
- The dashboard statistics, the DDT product summary, the archive search filter and the sender fields: read-only views or plain form state.
- `crypto.randomUUID`, `new Date()` and `confirm()`: parameters of the operations that use them.
- Floating point and `NaN`: weights, tares and unit weights are integers in hundredths, and collo counts are natural numbers; parsing the form text into them is not modelled, so a non-numeric unit weight (which `parseFloat` turns into `NaN` and the source lets through the fixed-weight check) is not represented, nor is a fractional or negative count typed into the free number field (src/pages/PalletCompositionPage.tsx:581-584).
- Weights.Recompute: the count is a natural number; the source reads it with `parseFloat` (src/pages/PalletCompositionPage.tsx:224), so "2.5" colli weigh 2.5 units and "-3" colli give a negative net there.
- Payload.CountElement: the total is a sum of natural numbers; the source sums `parseInt(count, 10)` (src/pages/PalletCompositionPage.tsx:270), so "2.5" counts as 2 in the (37) total while the weight rule uses 2.5, and a "-3" line lowers the total.
- DdtNumber.SuggestionExceeds: numbers are unbounded integers; in the source they are doubles, so from 2^53 on `max + 1` rounds back to `max` and the suggestion can repeat an existing number ("9007199254740992/2025").
- DdtNumber.NextSuggestion: likewise holds for unbounded integers only; from 2^53 on the source's next suggestion can equal the previous one.
- Totals are passed to `saveToHistory` as numbers, not as the `toFixed(2)` strings of the source.
- `toUpperCase` is modelled on ASCII letters only.
- Check digits and SSCCs are modelled on digit strings: a company prefix with a non-digit character (which makes `parseInt` return `NaN` in the source) is excluded by the requires of the SSCC builders and of Ledger.ShipmentLedger.GeneratePallet.
- The serial read back from storage or typed in the settings is a natural number; a negative or non-numeric serial is not modelled.
- The selection invariant SelectionReady keeps the available condition but not the recipient condition, because changing a saved pallet's recipient while it is selected would break the latter in the source too.
- The (3102) datum of 10000 kg or more has more than six digits, as in the source; the length limit of the AI is not enforced.
- The notes and optional contact fields of the records, and the article flags `requiresLot`, `requiresHarvestDate` and `netWeightAi` that the article form stores (src/pages/ArticlesPage.tsx:99-101), are not carried: no core operation reads them, so Articles.HandleSave builds the article without them.
- The form-to-record plumbing of the packagings, pallet types and recipients pages, the master-data table and the sidebar: no rules beyond the saves modelled in MasterData.

## Findings

| source | as written | input that shows it | evidently intended | confidence | as-written member | corrected member |
|---|---|---|---|---|---|---|
| src/App.tsx:278-283 | `deleteDdt` leaves `editingDdt` set, so the DDT page stays in edit mode for a deleted document | edit DDT "d" listing pallet "p", delete "d", then save the draft: "p" points at "d" and no document "d" exists | deleting the document being edited ends the edit, as "Annulla Modifica" does | not executed | ShipmentLaws.EditOfDeletedDdtDangles | Ledger.ShipmentLedger.DeleteDdt |
| src/App.tsx:267-276 | `deletePallet` leaves the deleted id in `selectedPalletIds` | select pallet "p" on the DDT page, delete "p" from the archive, then create the document: it lists "p", which no longer exists | a deleted pallet also leaves the selection | not executed | ShipmentLaws.CreateAfterDeletedSelectionLists | Ledger.ShipmentLedger.DeletePallet |
