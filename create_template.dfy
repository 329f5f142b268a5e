/** The "create template" screen: pages are appended with generated titles,
    edited by merging a partial page into the one with a given id, removed,
    reordered by drag and drop and saved once the checks pass. */
module CreateTemplate {
  import opened Common
  import opened TemplatePages

  /** `Partial<TemplatePage>`: the fields an edit sets, `None` for those it leaves. */
  datatype PagePatch = PagePatch(id: Option<string>, title: Option<string>, orientation: Option<Orientation>,
                                 backgroundImage: Option<string>)

  /** `{ ...page, ...updates }`. */
  function Merge(page: TemplatePage, patch: PagePatch): (r: TemplatePage)
    ensures patch.id.Some? ==> r.id == patch.id.value
    ensures patch.id.None? ==> r.id == page.id
    ensures patch.title.Some? ==> r.title == patch.title.value
    ensures patch.title.None? ==> r.title == page.title
    ensures patch.orientation.Some? ==> r.orientation == patch.orientation.value
    ensures patch.orientation.None? ==> r.orientation == page.orientation
    ensures patch.backgroundImage.Some? ==> r.backgroundImage == patch.backgroundImage
    ensures patch.backgroundImage.None? ==> r.backgroundImage == page.backgroundImage
  {
    TemplatePage(
      if patch.id.Some? then patch.id.value else page.id,
      if patch.title.Some? then patch.title.value else page.title,
      if patch.orientation.Some? then patch.orientation.value else page.orientation,
      if patch.backgroundImage.Some? then patch.backgroundImage else page.backgroundImage)
  }

  /** `addPage()`: a vertical page titled after the number of pages so far, at the end. */
  function AddPage(pages: seq<TemplatePage>, newId: string): (r: seq<TemplatePage>)
    ensures |r| == |pages| + 1 && r[..|pages|] == pages
    ensures r[|pages|].id == newId && r[|pages|].orientation == Vertical && r[|pages|].backgroundImage.None?
    ensures r[|pages|].title == (if pages == [] then "Corpo" else "Página " + NatToString(|pages|))
  {
    pages + [TemplatePage(newId, PageTitle(|pages|), Vertical, None)]
  }

  /** Every page is titled as `addPage` titles the page at its position. */
  predicate Numbered(pages: seq<TemplatePage>)
  {
    forall i :: 0 <= i < |pages| ==> pages[i].title == PageTitle(i)
  }

  /** Adding keeps a numbered list numbered. */
  lemma AddPageKeepsNumbered(pages: seq<TemplatePage>, newId: string)
    requires Numbered(pages)
    ensures Numbered(AddPage(pages, newId))
  {
    var r := AddPage(pages, newId);
    forall i | 0 <= i < |r|
      ensures r[i].title == PageTitle(i)
    {
      if i < |pages| {
        assert r[i] == pages[i];
      }
    }
  }

  /** In a numbered list no two pages share a title. */
  lemma NumberedTitlesDistinct(pages: seq<TemplatePage>, i: nat, j: nat)
    requires Numbered(pages) && i < |pages| && j < |pages| && i != j
    ensures pages[i].title != pages[j].title
  {
    if pages[i].title == pages[j].title {
      PageTitleInjective(i, j);
    }
  }

  /** Titles follow the count and not the numbers in use: removing the body
      and adding a page gives two pages titled "Página 1". */
  lemma RemoveThenAddRepeatsTitle(a: string, b: string, c: string)
    requires a != b
    ensures var pages := AddPage(AddPage([], a), b);
            var after := AddPage(RemovePage(pages, a), c);
            |after| == 2 && after[0].title == after[1].title == "Página 1"
  {
    var pages := AddPage(AddPage([], a), b);
    assert PageTitle(1) == "Página 1" by { SecondAndThirdTitles(); }
    assert pages == [TemplatePage(a, "Corpo", Vertical, None), TemplatePage(b, PageTitle(1), Vertical, None)];
    var kept := RemovePage(pages, a);
    RemovePageKeepsOrder([pages[0]], [pages[1]], pages[0], a);
    RemovePageKeepsOrder([pages[0]], [pages[1]], pages[1], a);
    assert pages == [pages[0]] + [pages[1]];
    assert kept == [pages[1]];
  }

  /** `updatePage(pageId, updates)`: the pages with that id take the updates, the others stay. */
  function UpdatePage(pages: seq<TemplatePage>, pageId: string, patch: PagePatch): (r: seq<TemplatePage>)
    ensures |r| == |pages|
    ensures forall i :: 0 <= i < |pages| ==> r[i] == if pages[i].id == pageId then Merge(pages[i], patch) else pages[i]
  {
    MapWhere(pages, (p: TemplatePage) => p.id == pageId, (p: TemplatePage) => Merge(p, patch))
  }

  /** Updating twice with the same updates is updating once, unless the updates move the id. */
  lemma UpdatePageIdempotent(pages: seq<TemplatePage>, pageId: string, patch: PagePatch)
    requires patch.id.None? || patch.id == Some(pageId)
    ensures UpdatePage(UpdatePage(pages, pageId, patch), pageId, patch) == UpdatePage(pages, pageId, patch)
  {
    var once := UpdatePage(pages, pageId, patch);
    var twice := UpdatePage(once, pageId, patch);
    forall i | 0 <= i < |pages|
      ensures twice[i] == once[i]
    {
      if pages[i].id == pageId {
        assert once[i].id == pageId;
      }
    }
  }

  /** An empty update changes nothing. */
  lemma EmptyUpdate(pages: seq<TemplatePage>, pageId: string)
    ensures UpdatePage(pages, pageId, PagePatch(None, None, None, None)) == pages
  {
  }
}
