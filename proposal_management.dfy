/** Proposals built from catalogue articles. Adding or removing an article
    recomputes the proposal's total value (Σ sale price × quantity) and total
    commission (Σ line commission) over the whole article list. */
module ProposalManagement {
  import opened Common
  import opened ArticleManagement

  datatype ProposalStatus = Aberta | Enviada | Ganha | Perdida

  /** A catalogue article placed on a proposal; its commission is the unit
      commission times the quantity. */
  datatype ProposalArticle = ProposalArticle(
    id: string,
    name: string,
    description: string,
    group: Group,
    pvp: real,
    marginPercent: real,
    marginEuro: real,
    costPrice: real,
    commission: real,
    quantity: int)

  datatype Proposal = Proposal(
    id: string,
    status: ProposalStatus,
    clientId: string,
    clientName: string,
    articles: seq<ProposalArticle>,
    totalValue: real,
    totalCommission: real,
    createdDate: string)

  /** The proposal form; `status` is `None` while nothing is selected. */
  datatype ProposalFormData = ProposalFormData(status: Option<ProposalStatus>, clientId: string, clientName: string)

  /** The "add article" row: the selected article id and the quantity as
      `parseInt` reads it (`None` when it reads no number). */
  datatype NewArticle = NewArticle(articleId: string, quantity: Option<int>)

  /** The state of the article dialog: the proposals, the one on display, the "add article" row. */
  datatype ArticleDialog = ArticleDialog(proposals: seq<Proposal>, selected: Option<Proposal>, newArticle: NewArticle)

  datatype ProposalError = MissingClientOrStatus

  /** `parseInt(quantity) || 1`: never 0. */
  function Quantity(q: Option<int>): (n: int)
    ensures n != 0
    ensures q.Some? && q.value != 0 ==> n == q.value
    ensures q.None? || q.value == 0 ==> n == 1
  {
    if q.Some? && q.value != 0 then q.value else 1
  }

  /** What one article line adds to the proposal's value. */
  function LineValue(a: ProposalArticle): real
  {
    a.pvp * (a.quantity as real)
  }

  /** `articles.reduce((sum, art) => sum + art.pvp * art.quantity, 0)`. */
  function TotalValue(arts: seq<ProposalArticle>): real
    decreases |arts|
  {
    if |arts| == 0 then 0.0 else TotalValue(arts[..|arts| - 1]) + LineValue(arts[|arts| - 1])
  }

  /** `articles.reduce((sum, art) => sum + art.commission, 0)`. */
  function TotalCommission(arts: seq<ProposalArticle>): real
    decreases |arts|
  {
    if |arts| == 0 then 0.0 else TotalCommission(arts[..|arts| - 1]) + arts[|arts| - 1].commission
  }

  /** Appending one article adds its value to the total value. */
  lemma TotalValueSnoc(arts: seq<ProposalArticle>, x: ProposalArticle)
    ensures TotalValue(arts + [x]) == TotalValue(arts) + LineValue(x)
  {
    assert (arts + [x])[..|arts|] == arts;
  }

  /** Appending one article adds its commission to the total commission. */
  lemma TotalCommissionSnoc(arts: seq<ProposalArticle>, x: ProposalArticle)
    ensures TotalCommission(arts + [x]) == TotalCommission(arts) + x.commission
  {
    assert (arts + [x])[..|arts|] == arts;
  }

  /** Splitting the articles by a test and its negation splits the total value the same way. */
  lemma {:induction false} TotalValueSplit(arts: seq<ProposalArticle>, keep: ProposalArticle -> bool,
                                           drop: ProposalArticle -> bool)
    requires forall x :: drop(x) == !keep(x)
    ensures TotalValue(arts) == TotalValue(Filter(arts, keep)) + TotalValue(Filter(arts, drop))
    decreases |arts|
  {
    if |arts| > 0 {
      var init, last := arts[..|arts| - 1], arts[|arts| - 1];
      TotalValueSplit(init, keep, drop);
      var a, b := Filter(init, keep), Filter(init, drop);
      assert TotalValue(arts) == TotalValue(init) + LineValue(last);
      if keep(last) {
        assert Filter(arts, keep) == a + [last];
        assert Filter(arts, drop) == b + [];
        assert b + [] == b;
        TotalValueSnoc(a, last);
      } else {
        assert Filter(arts, keep) == a + [];
        assert a + [] == a;
        assert Filter(arts, drop) == b + [last];
        TotalValueSnoc(b, last);
      }
    }
  }

  /** Likewise for the total commission. */
  lemma {:induction false} TotalCommissionSplit(arts: seq<ProposalArticle>, keep: ProposalArticle -> bool,
                                                drop: ProposalArticle -> bool)
    requires forall x :: drop(x) == !keep(x)
    ensures TotalCommission(arts) == TotalCommission(Filter(arts, keep)) + TotalCommission(Filter(arts, drop))
    decreases |arts|
  {
    if |arts| > 0 {
      var init, last := arts[..|arts| - 1], arts[|arts| - 1];
      TotalCommissionSplit(init, keep, drop);
      var a, b := Filter(init, keep), Filter(init, drop);
      assert TotalCommission(arts) == TotalCommission(init) + last.commission;
      if keep(last) {
        assert Filter(arts, keep) == a + [last];
        assert Filter(arts, drop) == b + [];
        assert b + [] == b;
        TotalCommissionSnoc(a, last);
      } else {
        assert Filter(arts, keep) == a + [];
        assert a + [] == a;
        assert Filter(arts, drop) == b + [last];
        TotalCommissionSnoc(b, last);
      }
    }
  }

  /** The article line `addArticleToProposal` builds from a catalogue article. */
  function ProposalArticleOf(a: Article, quantity: int): (p: ProposalArticle)
    ensures p.id == a.id && p.pvp == a.pvp && p.quantity == quantity
    ensures p.name == a.name && p.description == a.description && p.group == a.group
    ensures p.marginPercent == a.marginPercent && p.marginEuro == a.marginEuro && p.costPrice == a.costPrice
    ensures p.commission == a.commission * (quantity as real)
  {
    ProposalArticle(a.id, a.name, a.description, a.group, a.pvp, a.marginPercent, a.marginEuro, a.costPrice,
                    a.commission * (quantity as real), quantity)
  }

  /** `proposal` with `arts` as its articles and its totals recomputed from them. */
  predicate Recomputed(u: Proposal, p: Proposal, arts: seq<ProposalArticle>)
  {
    u == p.(articles := arts, totalValue := TotalValue(arts), totalCommission := TotalCommission(arts))
  }

  /** `addArticleToProposal()`. Nothing happens without a selected article
      and a displayed proposal, or for an article not in the catalogue;
      otherwise the article is appended with its quantity, the totals are
      recomputed, the proposal is replaced in the list and the row is reset. */
  method AddArticleToProposal(s: ArticleDialog, catalog: seq<Article>) returns (t: ArticleDialog)
    ensures (s.newArticle.articleId == "" || s.selected.None?
             || Find(catalog, (a: Article) => a.id == s.newArticle.articleId).None?) ==> t == s
    ensures s.newArticle.articleId != "" && s.selected.Some?
            && Find(catalog, (a: Article) => a.id == s.newArticle.articleId).Some? ==>
              var art := Find(catalog, (a: Article) => a.id == s.newArticle.articleId).value;
              var p := s.selected.value;
              var q := Quantity(s.newArticle.quantity);
              var arts := p.articles + [ProposalArticleOf(art, q)];
              art.id == s.newArticle.articleId
              && t.selected.Some? && Recomputed(t.selected.value, p, arts)
              && t.selected.value.totalValue == TotalValue(p.articles) + art.pvp * (q as real)
              && t.selected.value.totalCommission == TotalCommission(p.articles) + art.commission * (q as real)
              && t.proposals == ReplaceWhere(s.proposals, (x: Proposal) => x.id == p.id, t.selected.value)
              && t.newArticle == NewArticle("", Some(1))
  {
    if s.newArticle.articleId == "" || s.selected.None? {
      return s;
    }
    var found := Find(catalog, (a: Article) => a.id == s.newArticle.articleId);
    if found.None? {
      return s;
    }
    var article := found.value;
    var selected := s.selected.value;
    var quantity := Quantity(s.newArticle.quantity);
    var line := ProposalArticleOf(article, quantity);
    var updated := selected.(articles := selected.articles + [line]);
    updated := updated.(totalValue := TotalValue(updated.articles));
    updated := updated.(totalCommission := TotalCommission(updated.articles));
    assert (selected.articles + [line])[..|selected.articles|] == selected.articles;
    t := ArticleDialog(ReplaceWhere(s.proposals, (x: Proposal) => x.id == selected.id, updated),
                       Some(updated), NewArticle("", Some(1)));
  }

  /** `removeArticleFromProposal(articleId)`: every article with that id is
      dropped from the displayed proposal and the totals are recomputed. */
  method RemoveArticleFromProposal(s: ArticleDialog, articleId: string) returns (t: ArticleDialog)
    ensures s.selected.None? ==> t == s
    ensures s.selected.Some? ==>
              var p := s.selected.value;
              var arts := Filter(p.articles, (a: ProposalArticle) => a.id != articleId);
              t.selected.Some? && Recomputed(t.selected.value, p, arts)
              && (forall a :: a in t.selected.value.articles <==> a in p.articles && a.id != articleId)
              && t.proposals == ReplaceWhere(s.proposals, (x: Proposal) => x.id == p.id, t.selected.value)
              && t.newArticle == s.newArticle
  {
    if s.selected.None? {
      return s;
    }
    var selected := s.selected.value;
    var updated := selected.(articles := Filter(selected.articles, (a: ProposalArticle) => a.id != articleId));
    updated := updated.(totalValue := TotalValue(updated.articles));
    updated := updated.(totalCommission := TotalCommission(updated.articles));
    t := ArticleDialog(ReplaceWhere(s.proposals, (x: Proposal) => x.id == selected.id, updated),
                       Some(updated), s.newArticle);
  }

  /** After a removal the totals drop by exactly the totals of the removed articles. */
  lemma RemovedTotals(arts: seq<ProposalArticle>, articleId: string)
    ensures var kept := Filter(arts, (a: ProposalArticle) => a.id != articleId);
            var gone := Filter(arts, (a: ProposalArticle) => a.id == articleId);
            TotalValue(kept) == TotalValue(arts) - TotalValue(gone)
            && TotalCommission(kept) == TotalCommission(arts) - TotalCommission(gone)
  {
    TotalValueSplit(arts, (a: ProposalArticle) => a.id != articleId, (a: ProposalArticle) => a.id == articleId);
    TotalCommissionSplit(arts, (a: ProposalArticle) => a.id != articleId, (a: ProposalArticle) => a.id == articleId);
  }

  /** A customer the client selector offers. */
  datatype Client = Client(id: string, name: string)

  /** The three customers the client selector lists. */
  const Clients: seq<Client> := [Client("1", "TechCorp Solutions"), Client("2", "InnovaTech"), Client("3", "DigitalPro")]

  /** One selector of the proposal form set to a value. */
  datatype FormEdit = SetClientId(clientId: string) | SetStatus(status: Option<ProposalStatus>)

  /** `handleInputChange(field, value)`: choosing a client also copies that
      client's name into the form, or "" for an id no client has; choosing a
      status sets only the status. */
  function HandleInputChange(form: ProposalFormData, e: FormEdit, clients: seq<Client>): (r: ProposalFormData)
    ensures e.SetStatus? ==> r == form.(status := e.status)
    ensures e.SetClientId? ==> r.status == form.status && r.clientId == e.clientId
    ensures e.SetClientId? && (forall i :: 0 <= i < |clients| ==> clients[i].id != e.clientId) ==> r.clientName == ""
    ensures e.SetClientId? && (exists i :: 0 <= i < |clients| && clients[i].id == e.clientId) ==>
              exists i :: 0 <= i < |clients| && clients[i].id == e.clientId && r.clientName == clients[i].name
                          && forall j :: 0 <= j < i ==> clients[j].id != e.clientId
  {
    match e
    case SetStatus(st) => form.(status := st)
    case SetClientId(id) =>
      var client := Find(clients, (c: Client) => c.id == id);
      form.(clientId := id, clientName := if client.Some? then client.value.name else "")
  }

  /** With the listed customers the form's client name always follows its client id. */
  lemma ClientNameFollowsId(form: ProposalFormData, i: nat)
    requires i < |Clients|
    ensures HandleInputChange(form, SetClientId(Clients[i].id), Clients).clientName == Clients[i].name
  {
    var r := HandleInputChange(form, SetClientId(Clients[i].id), Clients);
    assert Clients[i].id == Clients[i].id;
    var k :| 0 <= k < |Clients| && Clients[k].id == Clients[i].id && r.clientName == Clients[k].name;
  }

  /** The record `handleSubmit` saves: the id of the proposal being edited (a
      new one when there is none, or it is empty), the status and client from
      the form, the edited proposal's articles (none for a new one), both
      totals reset to zero and today's date as the creation date, also when
      an existing proposal is edited. */
  function ProposalData(form: ProposalFormData, editing: Option<Proposal>, newId: string, today: string): (p: Proposal)
    requires form.status.Some?
    ensures p.id == (if editing.Some? && editing.value.id != "" then editing.value.id else newId)
    ensures p.status == form.status.value && p.clientId == form.clientId && p.clientName == form.clientName
    ensures p.articles == (if editing.Some? then editing.value.articles else [])
    ensures p.totalValue == 0.0 && p.totalCommission == 0.0 && p.createdDate == today
  {
    Proposal(
      if editing.Some? && editing.value.id != "" then editing.value.id else newId,
      form.status.value, form.clientId, form.clientName,
      if editing.Some? then editing.value.articles else [],
      0.0, 0.0, today)
  }

  /** `handleSubmit()`: rejected without a client or a status; otherwise the
      saved record replaces every proposal with the edited one's id, or is
      appended when no proposal is being edited. */
  function HandleSubmit(proposals: seq<Proposal>, form: ProposalFormData, editing: Option<Proposal>,
                        newId: string, today: string)
    : (r: Result<seq<Proposal>, ProposalError>)
    ensures r.Err? <==> form.clientId == "" || form.status.None?
    ensures r.Ok? && editing.None? ==> r.value == proposals + [ProposalData(form, editing, newId, today)]
    ensures r.Ok? && editing.Some? ==>
              |r.value| == |proposals|
              && forall i :: 0 <= i < |proposals| ==>
                   r.value[i] == if proposals[i].id == editing.value.id then ProposalData(form, editing, newId, today)
                                 else proposals[i]
  {
    if form.clientId == "" || form.status.None? then Err(MissingClientOrStatus)
    else
      var data := ProposalData(form, editing, newId, today);
      if editing.Some? then Ok(ReplaceWhere(proposals, (p: Proposal) => p.id == editing.value.id, data))
      else Ok(proposals + [data])
  }

  /** Saving an edit discards the totals the article dialog computed, while the articles stay. */
  lemma EditResetsTotals(proposals: seq<Proposal>, form: ProposalFormData, editing: Proposal, newId: string,
                         today: string, i: nat)
    requires form.clientId != "" && form.status.Some?
    requires i < |proposals| && proposals[i].id == editing.id
    ensures var r := HandleSubmit(proposals, form, Some(editing), newId, today);
            r.Ok? && r.value[i].articles == editing.articles && r.value[i].totalValue == 0.0
            && r.value[i].totalCommission == 0.0 && r.value[i].createdDate == today
  {
  }

  /** `handleDelete(id)`. */
  function HandleDelete(proposals: seq<Proposal>, id: string): (r: seq<Proposal>)
    ensures forall p :: p in r <==> p in proposals && p.id != id
  {
    Filter(proposals, (p: Proposal) => p.id != id)
  }

  /** Deleting keeps the order of what stays: it works proposal by proposal over any split of the list. */
  lemma HandleDeleteKeepsOrder(a: seq<Proposal>, b: seq<Proposal>, x: Proposal, id: string)
    ensures HandleDelete(a + b, id) == HandleDelete(a, id) + HandleDelete(b, id)
    ensures HandleDelete([x], id) == if x.id == id then [] else [x]
  {
    FilterAppend(a, b, (y: Proposal) => y.id != id);
    assert [x][..0] == [];
  }

  /** `resetForm()`: the form starts at status "Aberta" with no client. */
  function ResetForm(): (form: ProposalFormData)
    ensures form.status == Some(Aberta) && form.clientId == "" && form.clientName == ""
  {
    ProposalFormData(Some(Aberta), "", "")
  }

  /** A cleared form still lacks a client, so it cannot be saved. */
  lemma ResetFormRejected(proposals: seq<Proposal>, editing: Option<Proposal>, newId: string, today: string)
    ensures HandleSubmit(proposals, ResetForm(), editing, newId, today) == Err(MissingClientOrStatus)
  {
  }

  /** `handleEdit(proposal)`: the form shows the proposal's status and client. */
  function HandleEdit(p: Proposal): (form: ProposalFormData)
    ensures form.status == Some(p.status) && form.clientId == p.clientId && form.clientName == p.clientName
  {
    ProposalFormData(Some(p.status), p.clientId, p.clientName)
  }

  /** Opening a proposal with a client and saving it unchanged keeps it,
      except that its totals drop to zero and its creation date becomes today. */
  lemma EditThenSave(proposals: seq<Proposal>, p: Proposal, newId: string, today: string, i: nat)
    requires p.clientId != "" && p.id != ""
    requires i < |proposals| && proposals[i] == p
    ensures var r := HandleSubmit(proposals, HandleEdit(p), Some(p), newId, today);
            r.Ok? && r.value[i] == p.(totalValue := 0.0, totalCommission := 0.0, createdDate := today)
  {
  }

  /** The second seed proposal: the Marketing article at quantity 3, commission 80 × 3. */
  lemma SeedMarketingLine()
    ensures ProposalArticleOf(Article("2", "Campanha Google Ads", "Gestão de campanha publicitária",
                                      Marketing, 800.0, 50.0, 400.0, 400.0, 80.0), 3).commission == 240.0
    ensures TotalValue([ProposalArticleOf(Article("2", "Campanha Google Ads", "Gestão de campanha publicitária",
                                                  Marketing, 800.0, 50.0, 400.0, 400.0, 80.0), 3)]) == 2400.0
  {
  }
}
