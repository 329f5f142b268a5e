/** The proposal-line editor: adding, editing, removing lines and filling a
    line from a catalogue article. An edit first stores the new field value,
    then recomputes the dependent prices according to the line's mode, and
    finally recomputes the line total. */
module ProposalLinesTable {
  import opened Common
  import opened ProposalTypes
  import opened ProposalCalculations

  /** One change the editor can make to a line. Numeric values arrive already
      parsed by the input (`parseFloat(text) || 0`). */
  datatype LineEdit =
    | SetDescription(text: string)
    | SetUnit(text: string)
    | SetQuantity(value: real)
    | SetCalculationMode(mode: CalculationMode)
    | SetUnitPrice(value: real)
    | SetCostPrice(value: real)
    | SetMarginPercentage(value: real)
    | SetMarginEuro(value: real)
    | SetDiscountPercentage(value: real)

  /** quantity × unit price, less the line's discount percentage of it. */
  function LineTotal(l: ProposalLine): real
  {
    var subtotal := l.quantity * l.unitPrice;
    subtotal - subtotal * (l.discountPercentage / 100.0)
  }

  /** The line `addProposalLine` appends. */
  function EmptyLine(): ProposalLine
  {
    ProposalLine(None, None, "", "un", 1.0, 0.0, 0.0, 0.0, 0.0, Pvp, 0.0, 0.0)
  }

  function AddProposalLine(lines: seq<ProposalLine>): (r: seq<ProposalLine>)
    ensures |r| == |lines| + 1 && r[..|lines|] == lines
    ensures r[|lines|].id.None? && r[|lines|].articleId.None?
    ensures var n := r[|lines|];
            n.quantity == 1.0 && n.calculationMode == Pvp && n.unit == "un" && n.description == ""
            && n.unitPrice == 0.0 && n.costPrice == 0.0 && n.marginPercentage == 0.0
            && n.marginEuro == 0.0 && n.discountPercentage == 0.0 && n.lineTotal == 0.0
    ensures r[|lines|].lineTotal == LineTotal(r[|lines|])
  {
    lines + [EmptyLine()]
  }

  /** `lines.filter((_, i) => i !== index)`. */
  function RemoveProposalLine(lines: seq<ProposalLine>, index: nat): (r: seq<ProposalLine>)
    ensures index < |lines| ==> |r| == |lines| - 1
    ensures index >= |lines| ==> r == lines
    ensures forall j :: 0 <= j < |r| ==> r[j] == if j < index then lines[j] else lines[j + 1]
  {
    if index < |lines| then lines[..index] + lines[index + 1..] else lines
  }

  /** A line added and then removed leaves the list as it was. */
  lemma AddThenRemove(lines: seq<ProposalLine>)
    ensures RemoveProposalLine(AddProposalLine(lines), |lines|) == lines
  {
    assert AddProposalLine(lines)[..|lines|] == lines;
  }

  /** `{ ...line, [field]: value }`. */
  function Assign(line: ProposalLine, e: LineEdit): ProposalLine
  {
    match e
    case SetDescription(t) => line.(description := t)
    case SetUnit(t) => line.(unit := t)
    case SetQuantity(v) => line.(quantity := v)
    case SetCalculationMode(m) => line.(calculationMode := m)
    case SetUnitPrice(v) => line.(unitPrice := v)
    case SetCostPrice(v) => line.(costPrice := v)
    case SetMarginPercentage(v) => line.(marginPercentage := v)
    case SetMarginEuro(v) => line.(marginEuro := v)
    case SetDiscountPercentage(v) => line.(discountPercentage := v)
  }

  /** In "pvp" mode: the sale price and margin percentage the recompute would use. */
  function PvpInputs(line: ProposalLine, e: LineEdit): (real, real)
  {
    (if e.SetUnitPrice? then e.value else line.unitPrice,
     if e.SetMarginPercentage? then e.value else line.marginPercentage)
  }

  /** In "cost" mode: the cost price the recompute would use. */
  function CostInput(line: ProposalLine, e: LineEdit): real
  {
    if e.SetCostPrice? then e.value else line.costPrice
  }

  /** The dependent-price step of an edit, applied to the line after the new value was stored. */
  function Recompute(line: ProposalLine, e: LineEdit, stored: ProposalLine): ProposalLine
  {
    if e.SetCalculationMode? then
      stored.(unitPrice := 0.0, costPrice := 0.0, marginPercentage := 0.0, marginEuro := 0.0)
    else if line.calculationMode == Pvp then
      if e.SetUnitPrice? || e.SetMarginPercentage? then
        var (unitPrice, marginPercent) := PvpInputs(line, e);
        if unitPrice > 0.0 && marginPercent > 0.0 then
          var r := CalculateLineFromPvp(unitPrice, marginPercent);
          stored.(marginEuro := r.marginEuro, costPrice := r.costPrice)
        else stored
      else stored
    else
      var costPrice := CostInput(line, e);
      if costPrice > 0.0 && e.SetMarginPercentage? then
        var r := CalculateLineFromCost(costPrice, e.value, true);
        stored.(marginEuro := r.marginEuro, unitPrice := r.unitPrice)
      else if costPrice > 0.0 && e.SetMarginEuro? then
        var r := CalculateLineFromCost(costPrice, e.value, false);
        stored.(marginPercentage := r.marginPercent, unitPrice := r.unitPrice)
      else stored
  }

  /** The line `updateProposalLine` leaves at the edited index. */
  function EditLine(line: ProposalLine, e: LineEdit): (r: ProposalLine)
    // the total always agrees with the final quantity, price and discount
    ensures r.lineTotal == LineTotal(r)
    // identity fields are never touched; text, quantity and discount change only by their own edit
    ensures r.id == line.id && r.articleId == line.articleId
    ensures r.description == if e.SetDescription? then e.text else line.description
    ensures r.unit == if e.SetUnit? then e.text else line.unit
    ensures r.quantity == if e.SetQuantity? then e.value else line.quantity
    ensures r.discountPercentage == if e.SetDiscountPercentage? then e.value else line.discountPercentage
    ensures r.calculationMode == if e.SetCalculationMode? then e.mode else line.calculationMode
  {
    var stored := Assign(line, e);
    var recomputed := Recompute(line, e, stored);
    recomputed.(lineTotal := LineTotal(recomputed))
  }

  /** A mode change zeroes the four price fields, hence the total. */
  lemma ModeChangeResets(line: ProposalLine, m: CalculationMode)
    ensures var r := EditLine(line, SetCalculationMode(m));
            r.calculationMode == m && r.unitPrice == 0.0 && r.costPrice == 0.0
            && r.marginPercentage == 0.0 && r.marginEuro == 0.0 && r.lineTotal == 0.0
  {
  }

  /** In "pvp" mode, editing the price or the margin % recomputes margin € and
      cost only when both are positive; otherwise those two keep their values. */
  lemma PvpEdit(line: ProposalLine, e: LineEdit)
    requires line.calculationMode == Pvp && (e.SetUnitPrice? || e.SetMarginPercentage?)
    ensures var r := EditLine(line, e);
            var (up, mp) := PvpInputs(line, e);
            r.unitPrice == up && r.marginPercentage == mp
            && (up > 0.0 && mp > 0.0 ==>
                  100.0 * r.marginEuro == up * mp && r.costPrice + r.marginEuro == r.unitPrice)
            && (!(up > 0.0 && mp > 0.0) ==> r.marginEuro == line.marginEuro && r.costPrice == line.costPrice)
  {
  }

  /** In "pvp" mode every other edit only stores its value (and the total). */
  lemma PvpOtherEdit(line: ProposalLine, e: LineEdit)
    requires line.calculationMode == Pvp
    requires !e.SetCalculationMode? && !e.SetUnitPrice? && !e.SetMarginPercentage?
    ensures var r := EditLine(line, e); r == Assign(line, e).(lineTotal := r.lineTotal)
  {
  }

  /** In "cost" mode with a positive cost, the margin % sets margin € and the sale price. */
  lemma CostMarginPercentEdit(line: ProposalLine, v: real)
    requires line.calculationMode == Cost && line.costPrice > 0.0
    ensures var r := EditLine(line, SetMarginPercentage(v));
            r.marginPercentage == v && 100.0 * r.marginEuro == line.costPrice * v
            && r.unitPrice == line.costPrice + r.marginEuro && r.costPrice == line.costPrice
  {
  }

  /** In "cost" mode with a positive cost, the margin € sets the margin % and the sale price. */
  lemma CostMarginEuroEdit(line: ProposalLine, v: real)
    requires line.calculationMode == Cost && line.costPrice > 0.0
    ensures var r := EditLine(line, SetMarginEuro(v));
            r.marginEuro == v && r.marginPercentage * line.costPrice == 100.0 * v
            && r.unitPrice == line.costPrice + v && r.costPrice == line.costPrice
  {
  }

  /** In "cost" mode, editing the cost alone, or any edit while the cost is not
      positive, recomputes nothing: the value is stored and the total updated. */
  lemma CostNoRecompute(line: ProposalLine, e: LineEdit)
    requires line.calculationMode == Cost && !e.SetCalculationMode?
    requires e.SetCostPrice? || line.costPrice <= 0.0 || !(e.SetMarginPercentage? || e.SetMarginEuro?)
    ensures var r := EditLine(line, e); r == Assign(line, e).(lineTotal := r.lineTotal)
  {
  }

  /** Applying the same edit twice in a row gives the same line as applying it once. */
  lemma EditLineIdempotent(line: ProposalLine, e: LineEdit)
    ensures EditLine(EditLine(line, e), e) == EditLine(line, e)
  {
    var once := EditLine(line, e);
    if e.SetCalculationMode? {
    } else if line.calculationMode == Pvp {
      assert PvpInputs(once, e) == PvpInputs(line, e) || !(e.SetUnitPrice? || e.SetMarginPercentage?);
    } else {
      assert CostInput(once, e) == CostInput(line, e);
    }
  }

  /** `updateProposalLine(index, field, value)`: copy the list, store the value,
      recompute the dependent prices, then the line total, at `index` only. */
  method UpdateProposalLine(lines: seq<ProposalLine>, index: nat, e: LineEdit) returns (newLines: seq<ProposalLine>)
    requires index < |lines|
    ensures |newLines| == |lines|
    ensures forall j :: 0 <= j < |lines| && j != index ==> newLines[j] == lines[j]
    ensures newLines[index] == EditLine(lines[index], e)
  {
    var a := new ProposalLine[|lines|](j requires 0 <= j < |lines| => lines[j]);
    var line := a[index];
    a[index] := Assign(line, e);
    if e.SetCalculationMode? {
      a[index] := a[index].(unitPrice := 0.0, costPrice := 0.0, marginPercentage := 0.0, marginEuro := 0.0);
    } else if line.calculationMode == Pvp {
      if e.SetUnitPrice? || e.SetMarginPercentage? {
        var unitPrice := if e.SetUnitPrice? then e.value else line.unitPrice;
        var marginPercent := if e.SetMarginPercentage? then e.value else line.marginPercentage;
        if unitPrice > 0.0 && marginPercent > 0.0 {
          var r := CalculateLineFromPvp(unitPrice, marginPercent);
          a[index] := a[index].(marginEuro := r.marginEuro, costPrice := r.costPrice);
        }
      }
    } else {
      if e.SetCostPrice? || e.SetMarginPercentage? || e.SetMarginEuro? {
        var costPrice := if e.SetCostPrice? then e.value else line.costPrice;
        if costPrice > 0.0 {
          if e.SetMarginPercentage? {
            var r := CalculateLineFromCost(costPrice, e.value, true);
            a[index] := a[index].(marginEuro := r.marginEuro, unitPrice := r.unitPrice);
          } else if e.SetMarginEuro? {
            var r := CalculateLineFromCost(costPrice, e.value, false);
            a[index] := a[index].(marginPercentage := r.marginPercent, unitPrice := r.unitPrice);
          }
        }
      }
    }
    var updated := a[index];
    a[index] := updated.(lineTotal := LineTotal(updated));
    newLines := a[..];
  }

  /** The line at the chosen index after `selectArticle(index, articleId)`.
      "manual" clears the article and the prices but leaves the stored total
      as it was; a known article fills the line from its prices (margin % on
      the cost basis) and recomputes the total; an unknown id changes nothing. */
  function ArticleSelection(line: ProposalLine, articleId: string, articles: seq<CatalogArticle>): (l: ProposalLine)
    ensures articleId == "manual" ==>
              l == line.(articleId := None, description := "", unit := "un", unitPrice := 0.0, costPrice := 0.0,
                         marginEuro := 0.0, marginPercentage := 0.0)
    ensures articleId != "manual" && Find(articles, (a: CatalogArticle) => a.id == articleId).None? ==> l == line
    ensures articleId != "manual" && Find(articles, (a: CatalogArticle) => a.id == articleId).Some? ==>
              var art := Find(articles, (a: CatalogArticle) => a.id == articleId).value;
              art.id == articleId
              && l.articleId == Some(articleId) && l.description == art.description && l.unit == art.unit
              && l.unitPrice == art.salePrice && l.costPrice == art.purchasePrice
              && l.costPrice + l.marginEuro == l.unitPrice
              && (art.purchasePrice > 0.0 ==> l.marginPercentage * art.purchasePrice == 100.0 * l.marginEuro)
              && (art.purchasePrice <= 0.0 ==> l.marginPercentage == 0.0)
              && l.quantity == line.quantity && l.discountPercentage == line.discountPercentage
              && l.calculationMode == line.calculationMode && l.id == line.id
              && l.lineTotal == LineTotal(l)
  {
    if articleId == "manual" then
      line.(articleId := None, description := "", unit := "un", unitPrice := 0.0, costPrice := 0.0,
            marginEuro := 0.0, marginPercentage := 0.0)
    else
      var found := Find(articles, (a: CatalogArticle) => a.id == articleId);
      if found.None? then line
      else
        var art := found.value;
        var marginEuro := art.salePrice - art.purchasePrice;
        var updated := line.(articleId := Some(articleId), description := art.description, unit := art.unit,
                             unitPrice := art.salePrice, costPrice := art.purchasePrice, marginEuro := marginEuro,
                             marginPercentage := if art.purchasePrice > 0.0 then (marginEuro / art.purchasePrice) * 100.0
                                                 else 0.0);
        updated.(lineTotal := LineTotal(updated))
  }

  /** Choosing the same article again leaves the line as the first choice left it. */
  lemma ArticleSelectionIdempotent(line: ProposalLine, articleId: string, articles: seq<CatalogArticle>)
    ensures var once := ArticleSelection(line, articleId, articles);
            ArticleSelection(once, articleId, articles) == once
  {
  }

  /** `selectArticle(index, articleId)` on a copy of the lines: only the line
      at `index` changes, to its `ArticleSelection`. */
  method SelectArticle(lines: seq<ProposalLine>, index: nat, articleId: string, articles: seq<CatalogArticle>)
    returns (newLines: seq<ProposalLine>)
    requires index < |lines|
    ensures newLines == lines[index := ArticleSelection(lines[index], articleId, articles)]
    ensures |newLines| == |lines|
    ensures forall j :: 0 <= j < |lines| && j != index ==> newLines[j] == lines[j]
  {
    if articleId == "manual" {
      var a := new ProposalLine[|lines|](j requires 0 <= j < |lines| => lines[j]);
      a[index] := a[index].(articleId := None, description := "", unit := "un",
                            unitPrice := 0.0, costPrice := 0.0, marginEuro := 0.0, marginPercentage := 0.0);
      newLines := a[..];
      return;
    }
    var found := Find(articles, (a: CatalogArticle) => a.id == articleId);
    newLines := lines;
    if found.Some? {
      var article := found.value;
      var a := new ProposalLine[|lines|](j requires 0 <= j < |lines| => lines[j]);
      var marginEuro := article.salePrice - article.purchasePrice;
      var marginPercent := if article.purchasePrice > 0.0 then (marginEuro / article.purchasePrice) * 100.0 else 0.0;
      a[index] := a[index].(articleId := Some(articleId), description := article.description, unit := article.unit,
                            unitPrice := article.salePrice, costPrice := article.purchasePrice,
                            marginEuro := marginEuro, marginPercentage := marginPercent);
      var updated := a[index];
      a[index] := updated.(lineTotal := LineTotal(updated));
      newLines := a[..];
    }
  }
}
