// The first site generator (`src/build-website.ts`): the page paths a
// markdown file is published under, the pass that rewrites links between
// markdown files into links between pages, and the pass that gives
// headings their ids.
module BuildWebsite {
  import opened Common
  import opened Links

  /** Where a page is served and the file it is written to. */
  datatype PagePaths = PagePaths(path: string, outputFilePath: string)

  /**
   * `convertInputFilePath`: "/pages" and ".md" are stripped; the output
   * file is "/public" + that + ".html"; the path then loses a trailing
   * "/index", and an empty path becomes "/".
   */
  function ConvertInputFilePath(inputFilePath: string): (r: PagePaths)
    ensures r.path != ""
    ensures StartsWith(r.outputFilePath, "/public") && EndsWith(r.outputFilePath, ".html")
  {
    var stem := StripSuffix(StripPrefix(inputFilePath, "/pages"), ".md");
    var outputFilePath := "/public" + stem + ".html";
    assert outputFilePath[..7] == "/public";
    assert outputFilePath[|outputFilePath| - 5..] == ".html";
    var path := StripSuffix(stem, "/index");
    PagePaths(if path == "" then "/" else path, outputFilePath)
  }

  /** A file's page path is the one the page-content service rewrites links to it with. */
  lemma ConvertAgreesWithLinkRewrite(inputFilePath: string)
    ensures ConvertInputFilePath(inputFilePath).path == PagePathOf(inputFilePath)
  {
  }

  /** An index file "/pages" + q + "/index.md" is served at q, or "/" at the top, and written to "/public" + q + "/index.html". */
  lemma ConvertIndexPage(q: string)
    ensures ConvertInputFilePath("/pages" + q + "/index.md") == PagePaths(if q == "" then "/" else q, "/public" + q + "/index.html")
  {
    var s := "/pages" + q + "/index.md";
    assert StartsWith(s, "/pages") && s[6..] == q + "/index.md";
    var t := q + "/index.md";
    assert EndsWith(t, ".md") && t[..|t| - 3] == q + "/index";
    assert EndsWith(q + "/index", "/index") && (q + "/index")[..|q|] == q;
    assert "/public" + (q + "/index") + ".html" == "/public" + q + "/index.html";
  }

  /** An ordinary page "/pages" + q + ".md" is served at q and written to "/public" + q + ".html". */
  lemma ConvertPage(q: string)
    requires q != "" && !EndsWith(q, "/index")
    ensures ConvertInputFilePath("/pages" + q + ".md") == PagePaths(q, "/public" + q + ".html")
  {
    var s := "/pages" + q + ".md";
    assert StartsWith(s, "/pages") && s[6..] == q + ".md";
    assert EndsWith(q + ".md", ".md") && (q + ".md")[..|q|] == q;
  }

  /** What a pass knows of a page: its markdown file, if it has one, and its path. */
  datatype Page = Page(inputFilePath: Option<string>, path: string)

  /** `pages.filter((p) => p.inputFilePath === file)`. */
  function PagesWithInput(pages: seq<Page>, file: string): (r: seq<Page>)
    ensures |r| <= |pages|
    ensures forall p :: p in r <==> p in pages && p.inputFilePath == Some(file)
  {
    if |pages| == 0 then []
    else (if pages[0].inputFilePath == Some(file) then [pages[0]] else []) + PagesWithInput(pages[1..], file)
  }

  /** Only the page itself: a page with a file unique among the pages is the one match. */
  lemma PagesWithUniqueInput(pages: seq<Page>, i: nat)
    requires i < |pages| && pages[i].inputFilePath.Some?
    requires forall j :: 0 <= j < |pages| && j != i ==> pages[j].inputFilePath != pages[i].inputFilePath
    ensures PagesWithInput(pages, pages[i].inputFilePath.value) == [pages[i]]
  {
    if i > 0 {
      PagesWithUniqueInput(pages[1..], i - 1);
    }
  }

  /** What `convertMarkdownLinks` does with one link. */
  datatype LinkConversion =
    | External
    | NotMarkdown
    | NoUniqueDestination(file: string)
    | Rewritten(href: string)

  /**
   * An external link is kept; any other must match `^([/].*[.]md)(#.*)?$`
   * and name the file of exactly one page, and is then that page's path
   * plus the hash.
   */
  function ConvertLink(pages: seq<Page>, href: string): (r: LinkConversion)
    ensures r.External? <==> IsExternal(href)
    ensures r.NotMarkdown? <==> !IsExternal(href) && MatchMarkdownLink("/", href).None?
    ensures !IsExternal(href) && MatchMarkdownLink("/", href).Some? ==>
      var m := MatchMarkdownLink("/", href).value;
      var dest := PagesWithInput(pages, m.file);
      (r.Rewritten? <==> |dest| == 1) &&
      (r.Rewritten? ==> r.href == dest[0].path + m.hash && dest[0] in pages && dest[0].inputFilePath == Some(m.file)) &&
      (r.NoUniqueDestination? ==> r.file == m.file)
  {
    if IsExternal(href) then External
    else
      match MatchMarkdownLink("/", href)
      case None => NotMarkdown
      case Some(m) =>
        var dest := PagesWithInput(pages, m.file);
        if |dest| != 1 then NoUniqueDestination(m.file) else Rewritten(dest[0].path + m.hash)
  }

  /** The link written after a pass: rewritten, or left as it was. */
  function NewHref(pages: seq<Page>, href: string): (r: string)
    ensures ConvertLink(pages, href).Rewritten? ==> r == ConvertLink(pages, href).href
    ensures !ConvertLink(pages, href).Rewritten? ==> r == href
    ensures IsExternal(href) ==> r == href
  {
    match ConvertLink(pages, href)
    case Rewritten(h) => h
    case _ => href
  }

  /**
   * A link to a page's own file, with no hash or a hash free of ".", is
   * rewritten to the page's path with the same hash, when no other page
   * has that file.
   */
  lemma LinkToUniquePage(pages: seq<Page>, i: nat, hash: string)
    requires i < |pages| && pages[i].inputFilePath.Some?
    requires forall j :: 0 <= j < |pages| && j != i ==> pages[j].inputFilePath != pages[i].inputFilePath
    requires var f := pages[i].inputFilePath.value; StartsWith(f, "/") && |f| >= 4 && EndsWith(f, ".md") && NoLineTerminator(f + hash)
    requires hash == "" || (hash[0] == '#' && forall k :: 0 <= k < |hash| ==> hash[k] != '.')
    ensures ConvertLink(pages, pages[i].inputFilePath.value + hash) == Rewritten(pages[i].path + hash)
  {
    var f := pages[i].inputFilePath.value;
    MatchAtFileEnd("/", f, hash);
    assert !IsExternal(f + hash) by {
      assert (f + hash)[0] == f[0] == '/';
    }
    PagesWithUniqueInput(pages, i);
  }

  /** An error `convertMarkdownLinks` logs: the message, the link and the page's file. */
  datatype LinkError = LinkError(message: string, href: string, page: Option<string>)

  /** The error one link gives, if any. */
  function LinkErrorOf(pages: seq<Page>, page: Page, href: string): (r: Option<LinkError>)
    ensures r.Some? <==> ConvertLink(pages, href).NotMarkdown? || ConvertLink(pages, href).NoUniqueDestination?
    ensures r.Some? ==> r.value.href == href && r.value.page == page.inputFilePath
    ensures ConvertLink(pages, href).NotMarkdown? ==> r.value.message == "Link does not match regex:"
    ensures r.Some? ==> NewHref(pages, href) == href
    ensures IsExternal(href) ==> r.None?
  {
    match ConvertLink(pages, href)
    case NotMarkdown => Some(LinkError("Link does not match regex:", href, page.inputFilePath))
    case NoUniqueDestination(_) => Some(LinkError("Markdown file targeted by link does not exist:", href, page.inputFilePath))
    case _ => None
  }

  /** The errors a check gives on each href, in document order. */
  function LinkErrors(check: string -> Option<LinkError>, hrefs: seq<string>): (r: seq<LinkError>)
    ensures |r| <= |hrefs|
  {
    if |hrefs| == 0 then []
    else
      var last := check(hrefs[|hrefs| - 1]);
      LinkErrors(check, hrefs[..|hrefs| - 1]) + (if last.Some? then [last.value] else [])
  }

  /** The check `convertMarkdownLinks` makes of each link of a page. */
  function PageCheck(pages: seq<Page>, page: Page): string -> Option<LinkError>
  {
    href => LinkErrorOf(pages, page, href)
  }

  /** A page whose links are all external or rewritten logs nothing. */
  lemma {:induction false} NoErrorsWhenAllResolve(pages: seq<Page>, page: Page, hrefs: seq<string>)
    requires forall k :: 0 <= k < |hrefs| ==> ConvertLink(pages, hrefs[k]).External? || ConvertLink(pages, hrefs[k]).Rewritten?
    ensures LinkErrors(PageCheck(pages, page), hrefs) == []
  {
    if |hrefs| > 0 {
      NoErrorsWhenAllResolve(pages, page, hrefs[..|hrefs| - 1]);
    }
  }

  /** Every href rewritten in place, and the errors the check gives on the old ones, in order. */
  method RewriteHrefs(rewrite: string -> string, check: string -> Option<LinkError>, hrefs: array<string>) returns (errors: seq<LinkError>)
    modifies hrefs
    ensures forall k :: 0 <= k < hrefs.Length ==> hrefs[k] == rewrite(old(hrefs[k]))
    ensures errors == LinkErrors(check, old(hrefs[..]))
  {
    ghost var start := hrefs[..];
    errors := [];
    for k := 0 to hrefs.Length
      invariant forall j :: 0 <= j < k ==> hrefs[j] == rewrite(start[j])
      invariant forall j :: k <= j < hrefs.Length ==> hrefs[j] == start[j]
      invariant errors == LinkErrors(check, start[..k])
    {
      var href := hrefs[k];
      assert start[..k + 1][..k] == start[..k];
      var error := check(href);
      if error.Some? {
        errors := errors + [error.value];
      }
      hrefs[k] := rewrite(href);
    }
    assert start[..hrefs.Length] == start;
  }

  /**
   * `convertMarkdownLinks` on one page: every link is replaced by its new
   * href in place, and the errors are logged in order.
   */
  method ConvertMarkdownLinks(pages: seq<Page>, page: Page, hrefs: array<string>) returns (errors: seq<LinkError>)
    modifies hrefs
    ensures forall k :: 0 <= k < hrefs.Length ==> hrefs[k] == NewHref(pages, old(hrefs[k]))
    ensures errors == LinkErrors(PageCheck(pages, page), old(hrefs[..]))
  {
    errors := RewriteHrefs(href => NewHref(pages, href), PageCheck(pages, page), hrefs);
  }

  // ---- heading ids ----

  /** What `addHeadingIds` sees of a heading: its level, its text and its id. */
  datatype Heading = Heading(level: nat, text: Option<string>, id: Option<string>)

  /**
   * A stateful slugger, as a function of the texts slugged before and the
   * text: GitHub's slugger numbers a slug it has already given out.
   */
  type Slugger = (seq<string>, string) -> string

  /** The texts the slugger has seen after these headings, h1s included. */
  function SluggedTexts(headings: seq<Heading>): (r: seq<string>)
    ensures |r| <= |headings|
  {
    if |headings| == 0 then []
    else
      var last := headings[|headings| - 1];
      SluggedTexts(headings[..|headings| - 1]) + (if last.text.Some? then [last.text.value] else [])
  }

  /** Every heading with text, h1 or not, is remembered by the slugger. */
  lemma {:induction false} SluggedTextsHoldEveryText(headings: seq<Heading>, j: nat)
    requires j < |headings| && headings[j].text.Some?
    ensures headings[j].text.value in SluggedTexts(headings)
  {
    var n := |headings| - 1;
    if j < n {
      assert headings[..n][j] == headings[j];
      SluggedTextsHoldEveryText(headings[..n], j);
    }
  }

  /** A heading after the first loop: one with text has the slug of its text. */
  function Slugged(slugger: Slugger, headings: seq<Heading>, k: nat): Heading
    requires k < |headings|
  {
    var h := headings[k];
    if h.text.Some? then h.(id := Some(slugger(SluggedTexts(headings[..k]), h.text.value))) else h
  }

  /** A heading at the end: as after the first loop, except that an h1 has no id. */
  function WithHeadingId(slugger: Slugger, headings: seq<Heading>, k: nat): (r: Heading)
    requires k < |headings|
    ensures r.level == headings[k].level && r.text == headings[k].text
    ensures r.level == 1 ==> r.id == None
    ensures r.level != 1 && r.text.Some? ==> r.id == Some(slugger(SluggedTexts(headings[..k]), r.text.value))
    ensures r.text.None? ==> r.id == (if r.level == 1 then None else headings[k].id)
  {
    var h := Slugged(slugger, headings, k);
    if h.level == 1 then h.(id := None) else h
  }

  /**
   * `addHeadingIds` on one page: every heading with text gets the next
   * slug, then the h1s lose their ids, so that h1s take part in the
   * numbering of slugs but end without an id.
   */
  method AddHeadingIds(slugger: Slugger, headings: array<Heading>)
    modifies headings
    ensures forall k :: 0 <= k < headings.Length ==> headings[k] == WithHeadingId(slugger, old(headings[..]), k)
  {
    ghost var start := headings[..];
    var history: seq<string> := [];
    for k := 0 to headings.Length
      invariant history == SluggedTexts(start[..k])
      invariant forall j :: 0 <= j < k ==> headings[j] == Slugged(slugger, start, j)
      invariant forall j :: k <= j < headings.Length ==> headings[j] == start[j]
    {
      assert start[..k + 1][..k] == start[..k];
      var h := headings[k];
      if h.text.Some? {
        headings[k] := h.(id := Some(slugger(history, h.text.value)));
        history := history + [h.text.value];
      }
    }
    for k := 0 to headings.Length
      invariant forall j :: 0 <= j < k ==> headings[j] == WithHeadingId(slugger, start, j)
      invariant forall j :: k <= j < headings.Length ==> headings[j] == Slugged(slugger, start, j)
    {
      if headings[k].level == 1 {
        headings[k] := headings[k].(id := None);
      }
    }
  }
}
