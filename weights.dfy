/** The weight rule of src/pages/PalletCompositionPage.tsx, shared by
    `addPalletToLine`, `removePalletFromLine` and `updateLine`, and the
    `totals` reduce. Weights and tares are integer hundredths of a
    kilogram, so `parseFloat`, `toFixed(2)` and `Math.round(x * 100)` are
    exact here. */
module Weights {
  import opened Base
  import opened Records

  /** `pallets.reduce((acc, p) => acc + parseFloat(p.tare), 0)`. */
  function PalletsTare(pallets: seq<LinePallet>): int {
    if pallets == [] then 0 else PalletsTare(pallets[..|pallets| - 1]) + pallets[|pallets| - 1].tare
  }

  /** `packagingTare × count + Σ pallet tares`. */
  function LineTare(line: PalletLine): int {
    line.packagingTare * line.count + PalletsTare(line.pallets)
  }

  /** `art?.weightType === 'FIXED' || art?.um === 'PZ'`: an unknown article
      counts as variable weight. */
  predicate IsFixedWeight(articles: seq<MasterArticle>, code: string) {
    var art := FindArticle(articles, code);
    art.Some? && (art.value.weightType == FIXED || art.value.um == PZ)
  }

  /** `parseFloat(art?.unitWeight || '0')`. */
  function UnitWeight(articles: seq<MasterArticle>, code: string): int {
    var art := FindArticle(articles, code);
    if art.Some? then art.value.unitWeight else 0
  }

  function Max0(x: int): (m: int)
    ensures m >= 0 && m >= x && (m == 0 || m == x)
  {
    if x > 0 then x else 0
  }

  /** The weight rule: a fixed-weight line derives net from the unit weight
      and gross from net plus tare; any other line keeps its scale gross
      and derives net = max(0, gross - tare). */
  ghost predicate Balanced(articles: seq<MasterArticle>, line: PalletLine) {
    if IsFixedWeight(articles, line.articleCode) then
      && line.netWeight == UnitWeight(articles, line.articleCode) * line.count
      && line.grossWeight == line.netWeight + LineTare(line)
    else
      line.netWeight == Max0(line.grossWeight - LineTare(line))
  }

  /** The recalculation block of the three line operations. */
  function Recompute(articles: seq<MasterArticle>, line: PalletLine): (r: PalletLine)
    ensures Balanced(articles, r)
    ensures r == line.(netWeight := r.netWeight, grossWeight := r.grossWeight)
    ensures !IsFixedWeight(articles, line.articleCode) ==> r.grossWeight == line.grossWeight
  {
    var tare := LineTare(line);
    if IsFixedWeight(articles, line.articleCode) then
      var net := UnitWeight(articles, line.articleCode) * line.count;
      line.(netWeight := net, grossWeight := net + tare)
    else
      line.(netWeight := Max0(line.grossWeight - tare))
  }

  /** A balanced line is left as it is: recomputing is idempotent. */
  lemma RecomputeBalanced(articles: seq<MasterArticle>, line: PalletLine)
    requires Balanced(articles, line)
    ensures Recompute(articles, line) == line
  {
  }

  lemma RecomputeIdempotent(articles: seq<MasterArticle>, line: PalletLine)
    ensures Recompute(articles, Recompute(articles, line)) == Recompute(articles, line)
  {
    RecomputeBalanced(articles, Recompute(articles, line));
  }

  /** A variable-weight line never gets a negative net, and its net never
      exceeds its gross when the tare is non-negative. */
  lemma VariableNetBounds(articles: seq<MasterArticle>, line: PalletLine)
    requires !IsFixedWeight(articles, line.articleCode)
    ensures Recompute(articles, line).netWeight >= 0
    ensures LineTare(line) >= 0 && line.grossWeight >= 0
      ==> Recompute(articles, line).netWeight <= line.grossWeight
  {
  }

  /** The instance `addPalletToLine` appends: its own id and a copy of the
      master's id, name and tare. */
  function PalletInstance(master: MasterPallet, instanceId: string): LinePallet {
    LinePallet(instanceId, master.id, master.name, master.tare)
  }

  /** `[...line.pallets, instance]` then the recalculation. */
  function WithPallet(articles: seq<MasterArticle>, line: PalletLine, master: MasterPallet, instanceId: string): PalletLine {
    Recompute(articles, line.(pallets := line.pallets + [PalletInstance(master, instanceId)]))
  }

  /** `line.pallets.filter(p => p._id !== instanceId)`. */
  function WithoutInstance(pallets: seq<LinePallet>, instanceId: string): (r: seq<LinePallet>)
    ensures forall p :: p in r <==> p in pallets && p.instanceId != instanceId
    ensures |r| <= |pallets|
  {
    Filter(pallets, OtherInstance(instanceId))
  }

  /** `p => p._id !== instanceId`. */
  function OtherInstance(instanceId: string): LinePallet -> bool {
    (p: LinePallet) => p.instanceId != instanceId
  }

  /** `removePalletFromLine` on one line: filter then recalculation. */
  function WithoutPallet(articles: seq<MasterArticle>, line: PalletLine, instanceId: string): PalletLine {
    Recompute(articles, line.(pallets := WithoutInstance(line.pallets, instanceId)))
  }

  predicate HasInstance(pallets: seq<LinePallet>, instanceId: string) {
    exists i :: 0 <= i < |pallets| && pallets[i].instanceId == instanceId
  }

  lemma WithoutAbsentInstance(pallets: seq<LinePallet>, instanceId: string)
    requires !HasInstance(pallets, instanceId)
    ensures WithoutInstance(pallets, instanceId) == pallets
  {
    forall p | p in pallets
      ensures OtherInstance(instanceId)(p)
    {
      var i :| 0 <= i < |pallets| && pallets[i] == p;
    }
    FilterKeepsAll(pallets, OtherInstance(instanceId));
  }

  /** Adding one pallet adds exactly the master's tare to the line tare; a
      fixed-weight line keeps its net and its gross grows by that tare. */
  lemma WithPalletTare(articles: seq<MasterArticle>, line: PalletLine, master: MasterPallet, instanceId: string)
    ensures var r := WithPallet(articles, line, master, instanceId);
      && r.pallets == line.pallets + [PalletInstance(master, instanceId)]
      && LineTare(r) == LineTare(line) + master.tare
      && (IsFixedWeight(articles, line.articleCode) ==>
            r.netWeight == UnitWeight(articles, line.articleCode) * line.count
            && r.grossWeight == r.netWeight + LineTare(line) + master.tare)
  {
    var ps := line.pallets + [PalletInstance(master, instanceId)];
    assert ps[..|ps| - 1] == line.pallets;
  }

  /** Adding a pallet under a fresh instance id and removing it again gives
      back the balanced line. */
  lemma AddThenRemovePallet(articles: seq<MasterArticle>, line: PalletLine, master: MasterPallet, instanceId: string)
    requires Balanced(articles, line)
    requires !HasInstance(line.pallets, instanceId)
    ensures WithoutPallet(articles, WithPallet(articles, line, master, instanceId), instanceId) == line
  {
    var added := line.pallets + [PalletInstance(master, instanceId)];
    var w := WithPallet(articles, line, master, instanceId);
    assert w.pallets == added;
    assert WithoutInstance(added, instanceId) == line.pallets by {
      WithoutAbsentInstance(line.pallets, instanceId);
      FilterAppend(line.pallets, [PalletInstance(master, instanceId)], OtherInstance(instanceId));
      assert [PalletInstance(master, instanceId)][..0] == [];
    }
    assert w.(pallets := line.pallets) == line.(netWeight := w.netWeight, grossWeight := w.grossWeight);
    RecomputeIgnoresWeights(articles, line, w.netWeight, w.grossWeight);
    RecomputeBalanced(articles, line);
  }

  /** Recomputing overwrites the net and, for a fixed-weight line, the
      gross, so those inputs do not matter. */
  lemma RecomputeIgnoresWeights(articles: seq<MasterArticle>, line: PalletLine, net: int, gross: int)
    requires !IsFixedWeight(articles, line.articleCode) ==> gross == line.grossWeight
    ensures Recompute(articles, line.(netWeight := net, grossWeight := gross)) == Recompute(articles, line)
  {
  }

  /** `removePalletFromLine` keeps exactly the pallet instances with
      another id, in their order: the filter splits at every index and
      keeps one instance exactly when its id differs. */
  lemma WithoutInstanceSpec(pallets: seq<LinePallet>, instanceId: string)
    ensures forall p :: p in WithoutInstance(pallets, instanceId) <==> p in pallets && p.instanceId != instanceId
    ensures forall k :: 0 <= k <= |pallets| ==>
      WithoutInstance(pallets, instanceId)
        == WithoutInstance(pallets[..k], instanceId) + WithoutInstance(pallets[k..], instanceId)
    ensures forall i :: 0 <= i < |pallets| ==>
      WithoutInstance([pallets[i]], instanceId)
        == if pallets[i].instanceId != instanceId then [pallets[i]] else []
  {
    FilterOrder(pallets, OtherInstance(instanceId));
  }

  /** The three running sums of the `totals` reduce. */
  datatype WeightTotals = WeightTotals(net: int, gross: int, lineTare: int)

  /** `lines.reduce(...)`: plain sums of net, gross and line tare. */
  function Totals(lines: seq<PalletLine>): WeightTotals {
    if lines == [] then WeightTotals(0, 0, 0)
    else
      var t := Totals(lines[..|lines| - 1]);
      var l := lines[|lines| - 1];
      WeightTotals(t.net + l.netWeight, t.gross + l.grossWeight, t.lineTare + LineTare(l))
  }

  /** Totals are additive over a split of the lines. */
  lemma {:induction false} TotalsAppend(a: seq<PalletLine>, b: seq<PalletLine>)
    ensures var t := Totals(a + b);
      && t.net == Totals(a).net + Totals(b).net
      && t.gross == Totals(a).gross + Totals(b).gross
      && t.lineTare == Totals(a).lineTare + Totals(b).lineTare
  {
    if b != [] {
      assert (a + b)[..|a + b| - 1] == a + b[..|b| - 1];
      TotalsAppend(a, b[..|b| - 1]);
    } else {
      assert a + b == a;
    }
  }

  /** On balanced lines the gross total never exceeds net plus tare, with
      equality when every variable-weight line weighs at least its tare. */
  lemma {:induction false} TotalsBalance(articles: seq<MasterArticle>, lines: seq<PalletLine>)
    requires forall i :: 0 <= i < |lines| ==> Balanced(articles, lines[i])
    ensures Totals(lines).gross <= Totals(lines).net + Totals(lines).lineTare
    ensures (forall i :: 0 <= i < |lines| ==> lines[i].grossWeight >= LineTare(lines[i]))
      ==> Totals(lines).gross == Totals(lines).net + Totals(lines).lineTare
  {
    if lines != [] {
      TotalsBalance(articles, lines[..|lines| - 1]);
    }
  }

  /** The reference scenario: a variable-weight line of 10 colli with a
      0.60 kg packaging tare and one 25 kg pallet, weighed at 120.50 kg
      gross, nets 89.50 kg (line tare 31.00 kg). */
  lemma VariableLineExample(articles: seq<MasterArticle>, line: PalletLine)
    requires !IsFixedWeight(articles, line.articleCode)
    requires line.count == 10 && line.packagingTare == 60 && line.grossWeight == 12050
    requires |line.pallets| == 1 && line.pallets[0].tare == 2500
    ensures LineTare(line) == 3100
    ensures Recompute(articles, line).netWeight == 8950
  {
    assert line.pallets[..0] == [];
    assert PalletsTare(line.pallets) == 2500;
  }
}
