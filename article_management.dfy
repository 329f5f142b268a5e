/** The article catalogue editor. The form holds the four price fields as the
    text of numeric inputs; editing any one of them recomputes the other
    three on the sale-price basis, and saving an article fixes its commission
    from the margin and the rate of its group. */
module ArticleManagement {
  import opened Common

  /** The four groups the form offers. */
  datatype Group = Servicos | PackDeHoras | Marketing | Sites

  datatype Article = Article(
    id: string,
    name: string,
    description: string,
    group: Group,
    pvp: real,
    marginPercent: real,
    marginEuro: real,
    costPrice: real,
    commission: real)

  /** The editor's form. `group` is `None` while nothing is selected. */
  datatype ArticleForm = ArticleForm(
    name: string,
    description: string,
    group: Option<Group>,
    pvp: Entry,
    marginPercent: Entry,
    marginEuro: Entry,
    costPrice: Entry)

  /** The price fields that trigger a recompute. */
  datatype PriceField = PvpField | MarginPercentField | MarginEuroField | CostPriceField

  /** One change to the form. */
  datatype FormEdit =
    | SetName(text: string)
    | SetDescription(text: string)
    | SetGroup(group: Group)
    | SetPrice(field: PriceField, value: Entry)

  datatype Calculated = Calculated(marginPercent: real, marginEuro: real, costPrice: real)

  datatype ArticleError = MissingRequired

  /** The commission rate of each group: Serviços 5%, Pack de horas 10%,
      Marketing 20%, Sites 7.5%. */
  function CommissionRate(g: Group): (r: real)
    ensures 0.05 <= r <= 0.20
    ensures r == 0.20 <==> g == Marketing
  {
    match g
    case Servicos => 0.05
    case PackDeHoras => 0.10
    case Marketing => 0.20
    case Sites => 0.075
  }

  /** The sale price `calculateValues` works from: the new value when the sale
      price itself is edited, otherwise the one in the form. */
  function BasePvp(field: PriceField, value: Entry, current: ArticleForm): real
  {
    if field == PvpField then Parse0(value) else Parse0(current.pvp)
  }

  /** Margin % entered: the margin is that share of the sale price, the cost the rest. */
  function FromMarginPercent(pvp: real, marginPercent: real): (r: Calculated)
    ensures r.marginPercent == marginPercent && 100.0 * r.marginEuro == pvp * marginPercent
    ensures r.costPrice + r.marginEuro == pvp
  {
    var marginEuro := (pvp * marginPercent) / 100.0;
    Calculated(marginPercent, marginEuro, pvp - marginEuro)
  }

  /** The margin as a percentage of the sale price, 0 when the price is not positive. */
  function PercentOfPvp(pvp: real, marginEuro: real): (p: real)
    ensures pvp > 0.0 ==> p * pvp == 100.0 * marginEuro
    ensures pvp <= 0.0 ==> p == 0.0
  {
    if pvp > 0.0 then (marginEuro / pvp) * 100.0 else 0.0
  }

  /** `calculateValues(field, value, currentData)`, before rounding to two places. */
  function CalculateValues(field: PriceField, value: Entry, current: ArticleForm): (r: Calculated)
    // whichever field is edited, cost and margin add up to the sale price
    ensures r.costPrice + r.marginEuro == BasePvp(field, value, current)
    ensures field == MarginPercentField ==>
              r.marginPercent == Parse0(value)
              && 100.0 * r.marginEuro == BasePvp(field, value, current) * r.marginPercent
    ensures field == MarginEuroField ==> r.marginEuro == Parse0(value)
    ensures field == CostPriceField ==> r.costPrice == Parse0(value)
    // margin € or cost edited: the percentage is taken of the sale price, 0 when that is not positive
    ensures field == MarginEuroField || field == CostPriceField ==>
              r.marginPercent == PercentOfPvp(BasePvp(field, value, current), r.marginEuro)
    // sale price edited: the stored percentage is kept and applied to the new price
    ensures field == PvpField ==>
              r.marginPercent == Parse0(current.marginPercent)
              && 100.0 * r.marginEuro == Parse0(value) * r.marginPercent
  {
    var numValue := Parse0(value);
    var pvp := if field == PvpField then numValue else Parse0(current.pvp);
    match field
    case MarginPercentField => FromMarginPercent(pvp, numValue)
    case MarginEuroField => Calculated(PercentOfPvp(pvp, numValue), numValue, pvp - numValue)
    case CostPriceField =>
      var marginEuro := pvp - numValue;
      Calculated(PercentOfPvp(pvp, marginEuro), marginEuro, numValue)
    case PvpField => FromMarginPercent(pvp, Parse0(current.marginPercent))
  }

  /** `handleInputChange(field, value)`. For a price field the raw text is
      stored and then the three computed fields overwrite theirs, so only the
      sale price keeps the text as typed. */
  function HandleInputChange(form: ArticleForm, e: FormEdit): (r: ArticleForm)
    ensures e.SetName? ==> r == form.(name := e.text)
    ensures e.SetDescription? ==> r == form.(description := e.text)
    ensures e.SetGroup? ==> r == form.(group := Some(e.group))
    ensures e.SetPrice? ==>
              r.name == form.name && r.description == form.description && r.group == form.group
              && r.pvp == (if e.field == PvpField then e.value else form.pvp)
              && r.marginPercent.Num? && r.marginEuro.Num? && r.costPrice.Num?
              && Parse0(r.costPrice) + Parse0(r.marginEuro) == Parse0(r.pvp)
    // the edited margin or cost field holds the parsed value, 0 for a blank input
    ensures e.SetPrice? && e.field == MarginPercentField ==> r.marginPercent == Num(Parse0(e.value))
    ensures e.SetPrice? && e.field == MarginEuroField ==> r.marginEuro == Num(Parse0(e.value))
    ensures e.SetPrice? && e.field == CostPriceField ==> r.costPrice == Num(Parse0(e.value))
    // the three derived fields hold what `calculateValues` computed from the form before the edit
    ensures e.SetPrice? ==>
              var c := CalculateValues(e.field, e.value, form);
              r.marginPercent == Num(c.marginPercent) && r.marginEuro == Num(c.marginEuro)
              && r.costPrice == Num(c.costPrice)
  {
    match e
    case SetName(t) => form.(name := t)
    case SetDescription(t) => form.(description := t)
    case SetGroup(g) => form.(group := Some(g))
    case SetPrice(field, value) =>
      var c := CalculateValues(field, value, form);
      var stored := if field == PvpField then form.(pvp := value) else form;
      stored.(marginPercent := Num(c.marginPercent), marginEuro := Num(c.marginEuro), costPrice := Num(c.costPrice))
  }

  /** Editing the same price field with the same text twice gives the same form as once. */
  lemma PriceEditIdempotent(form: ArticleForm, field: PriceField, value: Entry)
    ensures var once := HandleInputChange(form, SetPrice(field, value));
            HandleInputChange(once, SetPrice(field, value)) == once
  {
    var once := HandleInputChange(form, SetPrice(field, value));
    if field == PvpField {
      assert Parse0(once.marginPercent) == Parse0(form.marginPercent);
    }
  }

  /** A form that may be saved: name, group and sale price are filled in. */
  predicate Submittable(form: ArticleForm)
  {
    form.name != "" && form.group.Some? && form.pvp.Num?
  }

  /** The record `handleSubmit` saves: the editing id if there is one, else a fresh id. */
  function ArticleData(form: ArticleForm, editing: Option<Article>, newId: string): (a: Article)
    requires Submittable(form)
    ensures a.commission == Parse0(form.marginEuro) * CommissionRate(a.group)
    ensures a.name == form.name && a.description == form.description
    ensures a.group == form.group.value && a.pvp == form.pvp.value
    ensures a.marginEuro == Parse0(form.marginEuro) && a.marginPercent == Parse0(form.marginPercent)
            && a.costPrice == Parse0(form.costPrice)
    ensures a.id == if editing.Some? && editing.value.id != "" then editing.value.id else newId
  {
    var group := form.group.value;
    var marginEuro := Parse0(form.marginEuro);
    Article(
      if editing.Some? && editing.value.id != "" then editing.value.id else newId,
      form.name, form.description, group, form.pvp.value,
      Parse0(form.marginPercent), marginEuro, Parse0(form.costPrice),
      marginEuro * CommissionRate(group))
  }

  /** `handleSubmit()`: rejected while name, group or sale price is empty;
      otherwise replaces the edited article or appends a new one. */
  function HandleSubmit(articles: seq<Article>, form: ArticleForm, editing: Option<Article>, newId: string)
    : (r: Result<seq<Article>, ArticleError>)
    ensures r.Err? <==> !Submittable(form)
    ensures r.Ok? && editing.None? ==> r.value == articles + [ArticleData(form, editing, newId)]
    ensures r.Ok? && editing.Some? ==>
              |r.value| == |articles|
              && forall i :: 0 <= i < |articles| ==>
                   r.value[i] == if articles[i].id == editing.value.id then ArticleData(form, editing, newId) else articles[i]
  {
    if !Submittable(form) then Err(MissingRequired)
    else
      var data := ArticleData(form, editing, newId);
      if editing.Some? then Ok(ReplaceWhere(articles, (a: Article) => a.id == editing.value.id, data))
      else Ok(articles + [data])
  }

  /** `handleDelete(id)`: every article with that id goes, the others stay. */
  function HandleDelete(articles: seq<Article>, id: string): (r: seq<Article>)
    ensures forall a :: a in r <==> a in articles && a.id != id
  {
    Filter(articles, (a: Article) => a.id != id)
  }

  /** Deleting keeps the order of what stays: it works article by article over any split of the list. */
  lemma HandleDeleteKeepsOrder(a: seq<Article>, b: seq<Article>, x: Article, id: string)
    ensures HandleDelete(a + b, id) == HandleDelete(a, id) + HandleDelete(b, id)
    ensures HandleDelete([x], id) == if x.id == id then [] else [x]
  {
    FilterAppend(a, b, (y: Article) => y.id != id);
    assert [x][..0] == [];
  }

  /** `resetForm()`: every field blank and no group chosen. */
  function ResetForm(): (form: ArticleForm)
    ensures form.name == "" && form.description == "" && form.group.None?
    ensures form.pvp.Blank? && form.marginPercent.Blank? && form.marginEuro.Blank? && form.costPrice.Blank?
  {
    ArticleForm("", "", None, Blank, Blank, Blank, Blank)
  }

  /** A cleared form cannot be saved. */
  lemma ResetFormRejected(articles: seq<Article>, editing: Option<Article>, newId: string)
    ensures HandleSubmit(articles, ResetForm(), editing, newId) == Err(MissingRequired)
  {
  }

  /** `handleEdit(article)`: the form shows the article, each price written
      out by `toString()` (which `parseFloat` reads back as the same number). */
  function HandleEdit(a: Article): (form: ArticleForm)
    ensures form.name == a.name && form.description == a.description && form.group == Some(a.group)
    ensures form.pvp == Num(a.pvp) && form.marginPercent == Num(a.marginPercent)
            && form.marginEuro == Num(a.marginEuro) && form.costPrice == Num(a.costPrice)
  {
    ArticleForm(a.name, a.description, Some(a.group), Num(a.pvp), Num(a.marginPercent), Num(a.marginEuro),
                Num(a.costPrice))
  }

  /** Opening a named article and saving it unchanged gives the article back,
      except that its commission is set afresh from its margin and group. */
  lemma EditThenSave(a: Article, newId: string)
    requires a.name != "" && a.id != ""
    ensures Submittable(HandleEdit(a))
    ensures ArticleData(HandleEdit(a), Some(a), newId) == a.(commission := a.marginEuro * CommissionRate(a.group))
  {
  }

  /** Whether the four prices of an article agree as the editor derives them. */
  predicate PricesAgree(a: Article)
  {
    a.costPrice + a.marginEuro == a.pvp && 100.0 * a.marginEuro == a.pvp * a.marginPercent
    && a.commission == a.marginEuro * CommissionRate(a.group)
  }

  /** The two articles the catalogue starts with. */
  function SeedArticles(): seq<Article>
  {
    [ Article("1", "Desenvolvimento Website", "Criação de website corporativo", Sites, 2500.0, 60.0, 1500.0, 1000.0, 112.50),
      Article("2", "Campanha Google Ads", "Gestão de campanha publicitária", Marketing, 800.0, 50.0, 400.0, 400.0, 80.0) ]
  }

  /** The seed articles are consistent with the editor's formulas and rates. */
  lemma SeedArticlesAgree()
    ensures forall i :: 0 <= i < |SeedArticles()| ==> PricesAgree(SeedArticles()[i])
  {
  }

  /** Saving a form whose prices came from an edit of a price field yields an
      article whose cost and margin add up to its sale price. */
  lemma SavedAfterPriceEdit(articles: seq<Article>, form: ArticleForm, field: PriceField, value: Entry,
                            editing: Option<Article>, newId: string)
    requires Submittable(HandleInputChange(form, SetPrice(field, value)))
    ensures var f := HandleInputChange(form, SetPrice(field, value));
            var a := ArticleData(f, editing, newId);
            a.costPrice + a.marginEuro == a.pvp && a.commission == a.marginEuro * CommissionRate(a.group)
  {
  }
}
