/** The record shapes shared by the proposal editor: a proposal line and a
    catalogue article as the line editor sees it. */
module ProposalTypes {
  import opened Common

  /** How a line's prices are derived: from the sale price ("pvp") or from the cost price. */
  datatype CalculationMode = Pvp | Cost

  datatype ProposalLine = ProposalLine(
    id: Option<string>,
    articleId: Option<string>,
    description: string,
    unit: string,
    quantity: real,
    unitPrice: real,
    costPrice: real,
    discountPercentage: real,
    lineTotal: real,
    calculationMode: CalculationMode,
    marginPercentage: real,
    marginEuro: real)

  /** A catalogue article offered to a proposal line. */
  datatype CatalogArticle = CatalogArticle(
    id: string,
    reference: string,
    description: string,
    unit: string,
    salePrice: real,
    purchasePrice: real,
    groupName: Option<string>)
}

/** The pure pricing formulas: margin from a sale price, sale price from a
    cost price, and the totals of a list of lines. */
module ProposalCalculations {
  import opened ProposalTypes

  datatype FromPvp = FromPvp(marginEuro: real, costPrice: real)

  datatype FromCost = FromCost(marginEuro: real, marginPercent: real, unitPrice: real)

  datatype LineTotals = LineTotals(subtotal: real, total: real)

  /** Sale-price basis: the margin is `marginPercent` percent of the sale price
      and the cost is whatever remains of the price. */
  function CalculateLineFromPvp(unitPrice: real, marginPercent: real): (r: FromPvp)
    ensures r.costPrice + r.marginEuro == unitPrice
    ensures 100.0 * r.marginEuro == unitPrice * marginPercent
  {
    var marginEuro := (unitPrice * marginPercent) / 100.0;
    var costPrice := unitPrice - marginEuro;
    FromPvp(marginEuro, costPrice)
  }

  /** Cost-price basis. With `isPercentage` the given value is a percentage of
      the cost; otherwise it is the margin in currency, and the percentage is
      derived from it when the cost is positive (0 otherwise: no division by zero). */
  function CalculateLineFromCost(costPrice: real, marginValue: real, isPercentage: bool): (r: FromCost)
    ensures r.unitPrice == costPrice + r.marginEuro
    ensures isPercentage ==> r.marginPercent == marginValue && 100.0 * r.marginEuro == costPrice * marginValue
    ensures !isPercentage ==> r.marginEuro == marginValue
    ensures !isPercentage && costPrice > 0.0 ==> r.marginPercent * costPrice == 100.0 * marginValue
    ensures !isPercentage && costPrice <= 0.0 ==> r.marginPercent == 0.0
  {
    if isPercentage then
      var marginPercent := marginValue;
      var marginEuro := (costPrice * marginPercent) / 100.0;
      FromCost(marginEuro, marginPercent, costPrice + marginEuro)
    else
      var marginEuro := marginValue;
      var unitPrice := costPrice + marginEuro;
      var marginPercent := if costPrice > 0.0 then (marginEuro / costPrice) * 100.0 else 0.0;
      FromCost(marginEuro, marginPercent, unitPrice)
  }

  /** From a positive cost, the percentage branch followed by the absolute
      branch on the margin it produced gives back the percentage and the price. */
  lemma PercentThenAbsolute(costPrice: real, marginPercent: real)
    requires costPrice > 0.0
    ensures var p := CalculateLineFromCost(costPrice, marginPercent, true);
            var a := CalculateLineFromCost(costPrice, p.marginEuro, false);
            a.marginPercent == marginPercent && a.unitPrice == p.unitPrice && a.marginEuro == p.marginEuro
  {
    var p := CalculateLineFromCost(costPrice, marginPercent, true);
    var a := CalculateLineFromCost(costPrice, p.marginEuro, false);
    assert a.marginPercent * costPrice == marginPercent * costPrice;
  }

  /** And the other way round: the absolute branch followed by the percentage
      branch on the percentage it produced gives back the margin and the price. */
  lemma AbsoluteThenPercent(costPrice: real, marginEuro: real)
    requires costPrice > 0.0
    ensures var a := CalculateLineFromCost(costPrice, marginEuro, false);
            var p := CalculateLineFromCost(costPrice, a.marginPercent, true);
            p.marginEuro == marginEuro && p.unitPrice == a.unitPrice
  {
    var a := CalculateLineFromCost(costPrice, marginEuro, false);
    var p := CalculateLineFromCost(costPrice, a.marginPercent, true);
    assert 100.0 * p.marginEuro == 100.0 * marginEuro;
  }

  /** On a positive sale price, the margin percentage is recovered from the
      margin it produced, as the article editor derives it. */
  lemma PvpMarginRoundTrip(unitPrice: real, marginPercent: real)
    requires unitPrice > 0.0
    ensures (CalculateLineFromPvp(unitPrice, marginPercent).marginEuro / unitPrice) * 100.0 == marginPercent
  {
    var r := CalculateLineFromPvp(unitPrice, marginPercent);
    assert (r.marginEuro / unitPrice) * unitPrice == r.marginEuro;
  }

  /** `lines.reduce((sum, line) => sum + line.line_total, 0)`. */
  function Subtotal(lines: seq<ProposalLine>): real
    decreases |lines|
  {
    if |lines| == 0 then 0.0 else Subtotal(lines[..|lines| - 1]) + lines[|lines| - 1].lineTotal
  }

  /** The subtotal of two lists put together is the sum of their subtotals. */
  lemma {:induction false} SubtotalAppend(a: seq<ProposalLine>, b: seq<ProposalLine>)
    ensures Subtotal(a + b) == Subtotal(a) + Subtotal(b)
    decreases |b|
  {
    if |b| == 0 {
      assert a + b == a;
    } else {
      assert (a + b)[..|a + b| - 1] == a + b[..|b| - 1];
      SubtotalAppend(a, b[..|b| - 1]);
    }
  }

  function CalculateLineTotals(lines: seq<ProposalLine>, discountPercentage: real): (r: LineTotals)
    ensures r.subtotal == Subtotal(lines)
    ensures r.total == r.subtotal - r.subtotal * discountPercentage / 100.0
    ensures lines == [] ==> r.subtotal == 0.0 && r.total == 0.0
  {
    var subtotal := Subtotal(lines);
    var discountAmount := subtotal * (discountPercentage / 100.0);
    LineTotals(subtotal, subtotal - discountAmount)
  }

  /** With the default discount of 0 the total is the subtotal. */
  lemma DefaultDiscount(lines: seq<ProposalLine>)
    ensures CalculateLineTotals(lines, 0.0).total == Subtotal(lines)
  {
  }
}
