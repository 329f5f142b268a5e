/** The "edit template" screen: the same page list as the "create" screen,
    loaded from a stored template, with pages edited one field at a time. */
module EditTemplate {
  import opened Common
  import opened TemplatePages
  import CreateTemplate

  /** The stored `pages` column: a JSON array of pages, or any other JSON value. */
  datatype PagesPayload = PageArray(items: seq<TemplatePage>) | NotAnArray

  /** One field of a page set to a value (`keyof TemplatePage` with its value). */
  datatype PageEdit =
    | SetId(id: string)
    | SetTitle(title: string)
    | SetOrientation(orientation: Orientation)
    | SetBackgroundImage(image: string)

  /** The pages `loadTemplate` keeps: the stored array, or none when the stored value is not an array. */
  function LoadPages(payload: PagesPayload): (r: seq<TemplatePage>)
    ensures payload.NotAnArray? ==> r == []
    ensures payload.PageArray? ==> r == payload.items
  {
    match payload
    case PageArray(items) => items
    case NotAnArray => []
  }

  /** `addNewPage()`: the title starts as "Página 1", becomes "Corpo" for an
      empty list and "Página n" otherwise; then the page is appended. The two
      screens add pages alike. */
  method AddNewPage(pages: seq<TemplatePage>, newId: string) returns (r: seq<TemplatePage>)
    ensures r == CreateTemplate.AddPage(pages, newId)
    ensures |r| == |pages| + 1 && r[..|pages|] == pages
    ensures r[|pages|].title == PageTitle(|pages|) && r[|pages|].orientation == Vertical
  {
    var pageTitle := "Página 1";
    if |pages| == 0 {
      pageTitle := "Corpo";
    } else {
      var pageNumber := |pages|;
      pageTitle := "Página " + NatToString(pageNumber);
    }
    var newPage := TemplatePage(newId, pageTitle, Vertical, None);
    r := pages + [newPage];
  }

  /** `{ ...page, [field]: value }`. */
  function SetField(page: TemplatePage, e: PageEdit): (r: TemplatePage)
    ensures e.SetId? ==> r == page.(id := e.id)
    ensures e.SetTitle? ==> r == page.(title := e.title)
    ensures e.SetOrientation? ==> r == page.(orientation := e.orientation)
    ensures e.SetBackgroundImage? ==> r == page.(backgroundImage := Some(e.image))
  {
    match e
    case SetId(v) => page.(id := v)
    case SetTitle(v) => page.(title := v)
    case SetOrientation(o) => page.(orientation := o)
    case SetBackgroundImage(v) => page.(backgroundImage := Some(v))
  }

  /** The one-field edit as a partial page. */
  function PatchOf(e: PageEdit): CreateTemplate.PagePatch
  {
    match e
    case SetId(v) => CreateTemplate.PagePatch(Some(v), None, None, None)
    case SetTitle(v) => CreateTemplate.PagePatch(None, Some(v), None, None)
    case SetOrientation(o) => CreateTemplate.PagePatch(None, None, Some(o), None)
    case SetBackgroundImage(v) => CreateTemplate.PagePatch(None, None, None, Some(v))
  }

  /** `updatePage(pageId, field, value)`: only the pages with that id get the field set. */
  function UpdatePage(pages: seq<TemplatePage>, pageId: string, e: PageEdit): (r: seq<TemplatePage>)
    ensures |r| == |pages|
    ensures forall i :: 0 <= i < |pages| ==> r[i] == if pages[i].id == pageId then SetField(pages[i], e) else pages[i]
  {
    MapWhere(pages, (p: TemplatePage) => p.id == pageId, (p: TemplatePage) => SetField(p, e))
  }

  /** Setting one field is the "create" screen's update with just that field. */
  lemma UpdatePageAgrees(pages: seq<TemplatePage>, pageId: string, e: PageEdit)
    ensures UpdatePage(pages, pageId, e) == CreateTemplate.UpdatePage(pages, pageId, PatchOf(e))
  {
    var a, b := UpdatePage(pages, pageId, e), CreateTemplate.UpdatePage(pages, pageId, PatchOf(e));
    forall i | 0 <= i < |pages|
      ensures a[i] == b[i]
    {
      assert SetField(pages[i], e) == CreateTemplate.Merge(pages[i], PatchOf(e));
    }
  }
}
