/** The page list of a document template, shared by the "create" and the
    "edit" template screens: page titles, the drag-and-drop reorder, removal
    by id and the checks made before saving. */
module TemplatePages {
  import opened Common

  datatype Orientation = Horizontal | Vertical

  datatype TemplatePage = TemplatePage(id: string, title: string, orientation: Orientation,
                                       backgroundImage: Option<string>)

  datatype SaveError = BlankName | NoPages

  /** What a save sends on: the name as typed (not trimmed) and the pages. */
  datatype TemplateData = TemplateData(name: string, pages: seq<TemplatePage>)

  function Digit(d: nat): (c: char)
    requires d < 10
    ensures '0' <= c <= '9' && c as int - '0' as int == d
  {
    "0123456789"[d]
  }

  /** The decimal numeral of `n`, as a template literal prints it. */
  function NatToString(n: nat): (s: string)
    ensures |s| >= 1
    ensures forall i :: 0 <= i < |s| ==> '0' <= s[i] <= '9'
    ensures n >= 10 ==> |s| >= 2
    decreases n
  {
    if n < 10 then [Digit(n)] else NatToString(n / 10) + [Digit(n % 10)]
  }

  /** The number a string of decimal digits denotes, most significant digit first. */
  function DecimalValue(s: string): nat
    requires forall i :: 0 <= i < |s| ==> '0' <= s[i] <= '9'
    decreases |s|
  {
    if |s| == 0 then 0 else DecimalValue(s[..|s| - 1]) * 10 + (s[|s| - 1] as int - '0' as int)
  }

  /** The numeral reads back as the number it was printed from, with no leading zero. */
  lemma {:induction false} NatToStringValue(n: nat)
    ensures DecimalValue(NatToString(n)) == n
    ensures n > 0 ==> NatToString(n)[0] != '0'
    decreases n
  {
    var s := NatToString(n);
    if n >= 10 {
      NatToStringValue(n / 10);
      assert s[..|s| - 1] == NatToString(n / 10);
      assert s[0] == NatToString(n / 10)[0];
    }
  }

  /** Distinct numbers print differently. */
  lemma {:induction false} NatToStringInjective(a: nat, b: nat)
    requires NatToString(a) == NatToString(b)
    ensures a == b
    decreases a
  {
    var sa, sb := NatToString(a), NatToString(b);
    if a >= 10 && b >= 10 {
      assert sa[..|sa| - 1] == NatToString(a / 10);
      assert sb[..|sb| - 1] == NatToString(b / 10);
      NatToStringInjective(a / 10, b / 10);
      assert Digit(a % 10) == sa[|sa| - 1] == Digit(b % 10);
    }
  }

  /** The title a new page gets when `count` pages already exist:
      "Corpo" (body) for the first, "Página n" after that. */
  function PageTitle(count: nat): (t: string)
    ensures count == 0 <==> t == "Corpo"
    ensures count > 0 ==> t == "Página " + NatToString(count)
  {
    if count == 0 then "Corpo" else "Página " + NatToString(count)
  }

  /** Pages added at different list lengths never share a title. */
  lemma PageTitleInjective(a: nat, b: nat)
    requires PageTitle(a) == PageTitle(b)
    ensures a == b
  {
    if a > 0 && b > 0 {
      var p := "Página ";
      assert PageTitle(a)[|p|..] == NatToString(a);
      assert PageTitle(b)[|p|..] == NatToString(b);
      NatToStringInjective(a, b);
    }
  }

  /** The page after the body is "Página 1", the next "Página 2". */
  lemma SecondAndThirdTitles()
    ensures PageTitle(1) == "Página 1" && PageTitle(2) == "Página 2"
  {
    assert NatToString(1) == "1" && NatToString(2) == "2";
  }

  /** The list with the element at `i` taken out (`splice(i, 1)`). */
  function Without<T>(s: seq<T>, i: nat): (r: seq<T>)
    requires i < |s|
  {
    s[..i] + s[i + 1..]
  }

  /** The list with `x` put in at `i` (`splice(i, 0, x)`). */
  function Inserted<T>(s: seq<T>, i: nat, x: T): (r: seq<T>)
    requires i <= |s|
  {
    s[..i] + [x] + s[i..]
  }

  /** A drop moving the page at `src` to `dst`: take it out, then put it back in at `dst`. */
  function Moved<T>(s: seq<T>, src: nat, dst: nat): (r: seq<T>)
    requires src < |s| && dst < |s|
  {
    Inserted(Without(s, src), dst, s[src])
  }

  /** Element by element: before `dst` the remaining pages in order, at `dst`
      the moved page, after it the remaining pages shifted by one. */
  lemma MovedAt<T>(s: seq<T>, src: nat, dst: nat, k: nat)
    requires src < |s| && dst < |s| && k < |s|
    ensures |Moved(s, src, dst)| == |s|
    ensures Moved(s, src, dst)[k] ==
              if k < dst then (if k < src then s[k] else s[k + 1])
              else if k == dst then s[src]
              else (if k - 1 < src then s[k - 1] else s[k])
  {
  }

  /** A move rearranges the pages: same length, same pages, the moved page at `dst`. */
  lemma MovedIsPermutation<T>(s: seq<T>, src: nat, dst: nat)
    requires src < |s| && dst < |s|
    ensures |Moved(s, src, dst)| == |s|
    ensures multiset(Moved(s, src, dst)) == multiset(s)
    ensures Moved(s, src, dst)[dst] == s[src]
  {
    var rest := Without(s, src);
    assert s == s[..src] + [s[src]] + s[src + 1..];
    assert rest[..dst] + rest[dst..] == rest;
    calc {
      multiset(Moved(s, src, dst));
      multiset(rest[..dst]) + multiset([s[src]]) + multiset(rest[dst..]);
      multiset(rest) + multiset([s[src]]);
      multiset(s[..src]) + multiset(s[src + 1..]) + multiset([s[src]]);
      multiset(s);
    }
  }

  /** Dragging the page back from `dst` to `src` undoes the move. */
  lemma {:induction false} MoveBackUndoes<T>(s: seq<T>, src: nat, dst: nat)
    requires src < |s| && dst < |s|
    ensures Moved(Moved(s, src, dst), dst, src) == s
  {
    var rest := Without(s, src);
    var t := Moved(s, src, dst);
    assert t[dst] == s[src];
    assert t[..dst] == rest[..dst] && t[dst + 1..] == rest[dst..];
    assert Without(t, dst) == rest;
    assert rest[..src] == s[..src] && rest[src..] == s[src + 1..];
    assert Moved(t, dst, src) == rest[..src] + [s[src]] + rest[src..];
    assert s == s[..src] + [s[src]] + s[src + 1..];
  }

  /** Dropping a page where it was picked up changes nothing. */
  lemma MoveInPlace<T>(s: seq<T>, i: nat)
    requires i < |s|
    ensures Moved(s, i, i) == s
  {
    assert s == s[..i] + [s[i]] + s[i + 1..];
  }

  /** A list that agrees with `MovedAt` at every index is the moved list. */
  lemma MovedFromParts<T>(s: seq<T>, src: nat, dst: nat, r: seq<T>)
    requires src < |s| && dst < |s| && |r| == |s|
    requires forall k {:trigger r[k]} :: 0 <= k < dst ==> r[k] == (if k < src then s[k] else s[k + 1])
    requires r[dst] == s[src]
    requires forall k {:trigger r[k]} :: dst < k < |s| ==> r[k] == (if k - 1 < src then s[k - 1] else s[k])
    ensures r == Moved(s, src, dst)
  {
    forall k | 0 <= k < |s|
      ensures r[k] == Moved(s, src, dst)[k]
    {
      MovedAt(s, src, dst, k);
    }
  }

  /** `handleDragEnd` / `onDragEnd`: nothing happens without a destination;
      otherwise the page list is copied, the dragged page spliced out and
      spliced back in at the destination. The drag library hands over a
      source index inside the list and a destination index inside the list
      that remains once the dragged page is taken out of it. */
  method DragEnd(pages: seq<TemplatePage>, source: nat, destination: Option<nat>) returns (r: seq<TemplatePage>)
    requires source < |pages|
    requires destination.Some? ==> destination.value < |pages|
    ensures destination.None? ==> r == pages
    ensures destination.Some? ==> r == Moved(pages, source, destination.value)
  {
    if destination.None? {
      return pages;
    }
    var dst := destination.value;
    var n := |pages|;
    var items := new TemplatePage[n](i requires 0 <= i < n => pages[i]);
    // splice(source, 1): shift the pages after the source one place left
    var removed := items[source];
    var i := source;
    while i < n - 1
      invariant source <= i <= n - 1
      invariant forall k {:trigger items[k]} :: 0 <= k < source ==> items[k] == pages[k]
      invariant forall k {:trigger items[k]} :: source <= k < i ==> items[k] == pages[k + 1]
      invariant forall k {:trigger items[k]} :: i <= k < n ==> items[k] == pages[k]
    {
      items[i] := items[i + 1];
      i := i + 1;
    }
    // splice(dst, 0, removed): shift the pages from dst one place right
    var j := n - 1;
    while j > dst
      invariant dst <= j <= n - 1
      invariant forall k {:trigger items[k]} :: 0 <= k <= j && k < n - 1 ==> items[k] == (if k < source then pages[k] else pages[k + 1])
      invariant forall k {:trigger items[k]} :: j < k < n ==> items[k] == (if k - 1 < source then pages[k - 1] else pages[k])
    {
      items[j] := items[j - 1];
      j := j - 1;
    }
    items[dst] := removed;
    r := items[..];
    MovedFromParts(pages, source, dst, r);
  }

  /** `removePage(id)` / `deletePage(id)`. */
  function RemovePage(pages: seq<TemplatePage>, pageId: string): (r: seq<TemplatePage>)
    ensures forall p :: p in r <==> p in pages && p.id != pageId
  {
    Filter(pages, (p: TemplatePage) => p.id != pageId)
  }

  /** Removal keeps the order of what stays: it works page by page over any split of the list. */
  lemma RemovePageKeepsOrder(a: seq<TemplatePage>, b: seq<TemplatePage>, p: TemplatePage, pageId: string)
    ensures RemovePage(a + b, pageId) == RemovePage(a, pageId) + RemovePage(b, pageId)
    ensures RemovePage([p], pageId) == if p.id == pageId then [] else [p]
  {
    FilterAppend(a, b, (q: TemplatePage) => q.id != pageId);
    assert [p][..0] == [];
  }

  /** Removing an id no page has leaves the list as it was. */
  lemma RemoveAbsentPage(pages: seq<TemplatePage>, pageId: string)
    requires forall i :: 0 <= i < |pages| ==> pages[i].id != pageId
    ensures RemovePage(pages, pageId) == pages
  {
    FilterAll(pages, (q: TemplatePage) => q.id != pageId);
  }

  /** The characters JavaScript's `trim` removes. */
  predicate IsTrimmed(c: char)
  {
    c == ' ' || c == '\t' || c == '\n' || c == '\U{000B}' || c == '\U{000C}' || c == '\r'
    || c == '\U{00A0}' || c == '\U{1680}' || ('\U{2000}' <= c <= '\U{200A}')
    || c == '\U{2028}' || c == '\U{2029}' || c == '\U{202F}' || c == '\U{205F}'
    || c == '\U{3000}' || c == '\U{FEFF}'
  }

  /** `s` without its leading white space. */
  function TrimStart(s: string): (r: string)
    ensures |r| <= |s| && r == s[|s| - |r|..]
    ensures forall i :: 0 <= i < |s| - |r| ==> IsTrimmed(s[i])
    ensures r != [] ==> !IsTrimmed(r[0])
    ensures r == [] <==> forall i :: 0 <= i < |s| ==> IsTrimmed(s[i])
  {
    if s != [] && IsTrimmed(s[0]) then TrimStart(s[1..]) else s
  }

  /** `s` without its trailing white space. */
  function TrimEnd(s: string): (r: string)
    ensures |r| <= |s| && r == s[..|r|]
    ensures forall i :: |r| <= i < |s| ==> IsTrimmed(s[i])
    ensures r != [] ==> !IsTrimmed(r[|r| - 1])
    ensures r == [] <==> forall i :: 0 <= i < |s| ==> IsTrimmed(s[i])
    decreases |s|
  {
    if s != [] && IsTrimmed(s[|s| - 1]) then TrimEnd(s[..|s| - 1]) else s
  }

  /** `s.trim()`. */
  function Trim(s: string): string
  {
    TrimEnd(TrimStart(s))
  }

  /** A name trims to nothing exactly when it is all white space. */
  lemma TrimBlank(s: string)
    ensures Trim(s) == "" <==> forall i :: 0 <= i < |s| ==> IsTrimmed(s[i])
  {
  }

  /** The checks of `handleSave`: a name that is not blank once trimmed, and at least one page. */
  function ValidateSave(name: string, pages: seq<TemplatePage>): (r: Result<TemplateData, SaveError>)
    ensures r == Err(BlankName) <==> Trim(name) == ""
    ensures r == Err(NoPages) <==> Trim(name) != "" && pages == []
    ensures r.Ok? ==> r.value == TemplateData(name, pages)
  {
    if Trim(name) == "" then Err(BlankName)
    else if |pages| == 0 then Err(NoPages)
    else Ok(TemplateData(name, pages))
  }
}
