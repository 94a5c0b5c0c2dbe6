// The site-analysis target (`src/target/SiteAnalysisTarget.ts`): every
// link of every built page is checked against the pages and their element
// ids; a page's warnings are collected and, if there are any, logged under
// a header line for the page.
module SiteAnalysis {
  import opened Common
  import opened Links
  import S = Service
  import DomService

  /** A built page: its path, its anchors, and the ids of its elements. */
  datatype SitePage = SitePage(path: string, anchors: seq<Anchor>, elementIds: set<string>)

  /** A warning pushed to a page's list; the argument objects are kept as the href they hold. */
  datatype LinkWarning =
    | EmptyLink
    | LinkMismatch(href: string)
    | MissingPage(href: string)
    | MissingElement(href: string)

  /** A line the target logs: a page's header, or one of its warnings behind six spaces. */
  datatype Line = PageHeader(path: string) | Indented(warning: LinkWarning)

  /** What reading a missing `href` does: `null.length` throws a TypeError. */
  const NullHrefError := S.Error("Cannot read properties of null (reading 'length')")

  /**
   * The ids of the page with this path, if any: `doms[pagePath]`, with
   * `pagePath in doms`. A record has one entry per path; the first page
   * with the path stands for it.
   */
  function PageIds(pages: seq<SitePage>, path: string): (r: Option<set<string>>)
    ensures r.None? <==> forall k :: 0 <= k < |pages| ==> pages[k].path != path
    ensures r.Some? ==> exists k :: 0 <= k < |pages| && pages[k].path == path && pages[k].elementIds == r.value
  {
    if |pages| == 0 then None
    else if pages[0].path == path then Some(pages[0].elementIds)
    else
      var r := PageIds(pages[1..], path);
      assert forall k :: 1 <= k < |pages| ==> pages[k] == pages[1..][k - 1];
      assert r.Some? ==> exists k :: 1 <= k < |pages| && pages[k].path == path && pages[k].elementIds == r.value by {
        if r.Some? {
          var k :| 0 <= k < |pages[1..]| && pages[1..][k].path == path && pages[1..][k].elementIds == r.value;
          assert pages[k + 1] == pages[1..][k];
        }
      }
      r
  }

  /** `href` split as the two groups of `/^([/].*)?(#.*)?$/` allow: a path part, then a hash part. */
  predicate Decomposes(href: string, n: nat)
  {
    n <= |href| && NoLineTerminator(href) &&
    (n == 0 || href[0] == '/') && (n == |href| || href[n] == '#')
  }

  /**
   * `/^([/].*)?(#.*)?$/.exec(href)`: the first group and the second, each
   * "" when absent. The first group is greedy, so after a leading "/" it
   * takes the whole href, hash and all.
   */
  function SiteLinkMatch(href: string): (r: Option<(string, string)>)
    ensures r.Some? ==> r.value.0 + r.value.1 == href
  {
    if !NoLineTerminator(href) then None
    else if |href| > 0 && href[0] == '/' then Some((href, ""))
    else if |href| == 0 || href[0] == '#' then Some(("", href))
    else None
  }

  /**
   * The expression matches exactly when the href splits into its two
   * groups, and the first group is then the longest that can be taken.
   */
  lemma SiteLinkMatchIff(href: string)
    ensures SiteLinkMatch(href).Some? <==> exists n :: Decomposes(href, n)
    ensures SiteLinkMatch(href).Some? ==>
      var n := |SiteLinkMatch(href).value.0|;
      Decomposes(href, n) && forall m: nat :: Decomposes(href, m) ==> m <= n
  {
    if exists n :: Decomposes(href, n) {
      var n :| Decomposes(href, n);
      assert n == 0 ==> n == |href| || href[0] == '#';
    }
    if SiteLinkMatch(href).Some? {
      assert Decomposes(href, |SiteLinkMatch(href).value.0|);
    }
  }

  /**
   * The check of one href of the page at `current`: external links pass;
   * an empty one warns; one the expression does not match warns; the
   * page it targets (its path part, or the current page) must exist; and
   * a hash part must name an element of that page (no element has the
   * id "").
   */
  function CheckLink(pages: seq<SitePage>, current: string, href: string): (r: Option<LinkWarning>)
    ensures IsExternal(href) ==> r.None?
    ensures r == Some(EmptyLink) <==> !IsExternal(href) && href == ""
    ensures r == Some(LinkMismatch(href)) <==> !IsExternal(href) && href != "" && SiteLinkMatch(href).None?
    ensures r == Some(MissingPage(href)) <==>
      !IsExternal(href) && href != "" && SiteLinkMatch(href).Some? &&
      PageIds(pages, if SiteLinkMatch(href).value.0 == "" then current else SiteLinkMatch(href).value.0).None?
  {
    if IsExternal(href) then None
    else if |href| == 0 then Some(EmptyLink)
    else
      match SiteLinkMatch(href)
      case None => Some(LinkMismatch(href))
      case Some((path, hash)) =>
        var pagePath := if path == "" then current else path;
        match PageIds(pages, pagePath)
        case None => Some(MissingPage(href))
        case Some(ids) =>
          if hash != "" && (hash[1..] == "" || hash[1..] !in ids) then Some(MissingElement(href)) else None
  }

  /**
   * A link with a leading "/" targets the page named by the whole href,
   * hash included, and its hash is never looked up: it passes exactly
   * when some page has that path.
   */
  lemma SlashLinkTargetsWholeHref(pages: seq<SitePage>, current: string, href: string)
    requires |href| > 0 && href[0] == '/' && NoLineTerminator(href)
    ensures CheckLink(pages, current, href) == (if PageIds(pages, href).Some? then None else Some(MissingPage(href)))
  {
    SlashLinkIsLocal(href);
  }

  /** Only a link that starts with "#" has its hash looked up. */
  lemma OnlyFragmentsCheckElements(pages: seq<SitePage>, current: string, href: string)
    ensures CheckLink(pages, current, href).Some? && CheckLink(pages, current, href).value.MissingElement? ==>
      |href| > 0 && href[0] == '#' && PageIds(pages, current).Some? &&
      (href == "#" || href[1..] !in PageIds(pages, current).value)
  {
  }

  /** A link "#id" passes exactly when the current page exists and has an element with that id. */
  lemma FragmentLinkCheck(pages: seq<SitePage>, current: string, id: string)
    requires NoLineTerminator(id) && PageIds(pages, current).Some?
    ensures CheckLink(pages, current, "#" + id) == (if id != "" && id in PageIds(pages, current).value then None else Some(MissingElement("#" + id)))
  {
    var href := "#" + id;
    assert href[0] == '#' && href[1..] == id;
    assert !IsExternal(href) by {
      assert !StartsWith(href, "http:") && !StartsWith(href, "https:") && !StartsWith(href, "mailto:") by {
        assert href[..1] == "#";
      }
    }
    assert NoLineTerminator(href) by {
      forall i | 0 <= i < |href| ensures !IsLineTerminator(href[i]) {
        if i > 0 {
          assert href[i] == id[i - 1];
        }
      }
    }
  }

  /**
   * The link a heading is wrapped in passes the site check exactly when
   * the heading's slug is non-empty and is the id of an element of the
   * page (as `PagePreview.AssignHeadingIds` gives a heading its slug as id);
   * otherwise it is reported as a missing element.
   */
  lemma HeadingLinkChecked(pages: seq<SitePage>, current: string, slug: string -> string, text: string)
    requires NoLineTerminator(slug(text)) && PageIds(pages, current).Some?
    ensures CheckLink(pages, current, DomService.HeadingLinkHref(slug, text)) ==
      (if slug(text) != "" && slug(text) in PageIds(pages, current).value then None
       else Some(MissingElement(DomService.HeadingLinkHref(slug, text))))
  {
    FragmentLinkCheck(pages, current, slug(text));
  }

  // ---- one page ----

  /** The warnings the check gives on each anchor, in order. */
  function WarningsOf(check: string -> Option<LinkWarning>, anchors: seq<Anchor>): (r: seq<LinkWarning>)
    ensures |r| <= |anchors|
  {
    if |anchors| == 0 then []
    else
      var a := anchors[|anchors| - 1];
      var w := if a.href.Some? then check(a.href.value) else None;
      WarningsOf(check, anchors[..|anchors| - 1]) + (if w.Some? then [w.value] else [])
  }

  /** A page's warnings, and whether its loop threw: the anchors before the first without an href are checked. */
  function PageOutcome(check: string -> Option<LinkWarning>, anchors: seq<Anchor>): (seq<LinkWarning>, bool)
  {
    var n := FirstMissingHref(anchors);
    (WarningsOf(check, anchors[..n]), n < |anchors|)
  }

  /** The analysis of page `p` meets an anchor without an href, and throws. */
  predicate PageThrows(checks: PageChecks, p: SitePage)
  {
    PageOutcome(checks(p.path), p.anchors).1
  }

  /** The check of the links of the page at `current`. */
  function CheckOn(pages: seq<SitePage>, current: string): string -> Option<LinkWarning>
  {
    href => CheckLink(pages, current, href)
  }

  /** The inner loop over a page's anchors, pushing to the page's `warnings` list. */
  method CheckAnchors(check: string -> Option<LinkWarning>, anchors: seq<Anchor>) returns (warnings: seq<LinkWarning>, threw: bool)
    ensures (warnings, threw) == PageOutcome(check, anchors)
  {
    warnings := [];
    var k := 0;
    while k < |anchors|
      invariant 0 <= k <= |anchors|
      invariant forall j :: 0 <= j < k ==> anchors[j].href.Some?
      invariant warnings == WarningsOf(check, anchors[..k])
    {
      var href := anchors[k].href;
      if href.None? {
        assert FirstMissingHref(anchors) == k;
        return warnings, true;
      }
      assert anchors[..k + 1][..k] == anchors[..k];
      var w := check(href.value);
      if w.Some? {
        warnings := warnings + [w.value];
      }
      k := k + 1;
    }
    assert FirstMissingHref(anchors) == k && anchors[..k] == anchors;
    threw := false;
  }

  /** Each warning behind six spaces. */
  function IndentAll(warnings: seq<LinkWarning>): (r: seq<Line>)
    ensures |r| == |warnings|
  {
    if |warnings| == 0 then [] else [Indented(warnings[0])] + IndentAll(warnings[1..])
  }

  /** The `finally` block: nothing for a page without warnings, else its header and then each warning. */
  function Flush(path: string, warnings: seq<LinkWarning>): (r: seq<Line>)
    ensures r == [] <==> warnings == []
    ensures r != [] ==> |r| == |warnings| + 1 && r[0] == PageHeader(path)
  {
    if warnings == [] then [] else [PageHeader(path)] + IndentAll(warnings)
  }

  lemma {:induction false} IndentAllLines(warnings: seq<LinkWarning>)
    ensures forall k :: 0 <= k < |warnings| ==> IndentAll(warnings)[k] == Indented(warnings[k])
  {
    if |warnings| > 0 {
      IndentAllLines(warnings[1..]);
    }
  }

  /** What the flush logs: nothing, or the header and then each warning in order. */
  lemma FlushLines(path: string, warnings: seq<LinkWarning>)
    ensures warnings == [] ==> Flush(path, warnings) == []
    ensures var r := Flush(path, warnings);
      warnings != [] ==>
        |r| == |warnings| + 1 && r[0] == PageHeader(path) && (forall k :: 0 <= k < |warnings| ==> r[k + 1] == Indented(warnings[k]))
  {
    IndentAllLines(warnings);
  }

  // ---- the site ----

  /** A check for each page path: the check of the links of the page there. */
  type PageChecks = string -> (string -> Option<LinkWarning>)

  /** The checks of the site's pages: each against all the pages. */
  function ChecksOf(pages: seq<SitePage>): PageChecks
  {
    current => CheckOn(pages, current)
  }

  /**
   * A run over the pages: they are analysed in order, each flushing its
   * warnings; a page with an anchor without an href flushes what it has
   * and the error propagates, so later pages are not analysed.
   */
  function RunPages(checks: PageChecks, pages: seq<SitePage>): (r: (seq<Line>, bool))
    ensures r.1 <==> exists k :: 0 <= k < |pages| && PageThrows(checks, pages[k])
  {
    if |pages| == 0 then ([], false)
    else
      var before := RunPages(checks, pages[..|pages| - 1]);
      assert forall k :: 0 <= k < |pages| - 1 ==> pages[..|pages| - 1][k] == pages[k];
      if before.1 then before
      else
        var p := pages[|pages| - 1];
        var outcome := PageOutcome(checks(p.path), p.anchors);
        (before.0 + Flush(p.path, outcome.0), outcome.1)
  }

  /** The target's run: every page's links are checked against all the pages. */
  function SiteOutcome(pages: seq<SitePage>): (seq<Line>, bool)
  {
    RunPages(ChecksOf(pages), pages)
  }

  /** Once a page has thrown, the pages after it change nothing. */
  lemma {:induction false} RunPagesStops(checks: PageChecks, pages: seq<SitePage>, k: nat)
    requires k <= |pages| && RunPages(checks, pages[..k]).1
    ensures RunPages(checks, pages) == RunPages(checks, pages[..k])
  {
    if k < |pages| {
      var init := pages[..|pages| - 1];
      assert init[..k] == pages[..k];
      RunPagesStops(checks, init, k);
    } else {
      assert pages[..k] == pages;
    }
  }

  /** The pages after the first to throw are never analysed: they log nothing. */
  lemma LaterPagesIgnored(checks: PageChecks, pages: seq<SitePage>, more: seq<SitePage>)
    requires RunPages(checks, pages).1
    ensures RunPages(checks, pages + more) == RunPages(checks, pages)
  {
    assert (pages + more)[..|pages|] == pages;
    RunPagesStops(checks, pages + more, |pages|);
  }

  /** One page: its links checked, then the `finally` flush. */
  method CheckPage(checks: PageChecks, page: SitePage) returns (lines: seq<Line>, threw: bool)
    ensures lines == Flush(page.path, PageOutcome(checks(page.path), page.anchors).0)
    ensures threw == PageOutcome(checks(page.path), page.anchors).1
  {
    var warnings;
    warnings, threw := CheckAnchors(checks(page.path), page.anchors);
    lines := Flush(page.path, warnings);
  }

  /** The outer loop over the pages. */
  method CheckPages(checks: PageChecks, pages: seq<SitePage>) returns (lines: seq<Line>, threw: bool)
    ensures (lines, threw) == RunPages(checks, pages)
  {
    lines := [];
    var k := 0;
    while k < |pages|
      invariant 0 <= k <= |pages|
      invariant (lines, false) == RunPages(checks, pages[..k])
    {
      var pageLines;
      pageLines, threw := CheckPage(checks, pages[k]);
      assert pages[..k + 1][..k] == pages[..k];
      lines := lines + pageLines;
      if threw {
        RunPagesStops(checks, pages, k + 1);
        return;
      }
      k := k + 1;
    }
    assert pages[..k] == pages;
    threw := false;
  }

  /** The target's build: the lines it logs, and the TypeError that escapes it, if any. */
  method AnalyseSite(pages: seq<SitePage>) returns (lines: seq<Line>, r: Completion<(), S.Exception>)
    ensures lines == SiteOutcome(pages).0
    ensures r == (if SiteOutcome(pages).1 then Threw(NullHrefError) else Returned(()))
  {
    var threw;
    lines, threw := CheckPages(ChecksOf(pages), pages);
    r := if threw then Threw(NullHrefError) else Returned(());
  }

  /** A site whose links all pass logs nothing, and its run returns. */
  lemma QuietSite(pages: seq<SitePage>)
    requires forall j, k :: 0 <= j < |pages| && 0 <= k < |pages[j].anchors| ==>
      pages[j].anchors[k].href.Some? && CheckLink(pages, pages[j].path, pages[j].anchors[k].href.value).None?
    ensures SiteOutcome(pages) == ([], false)
  {
    var checks := ChecksOf(pages);
    forall j | 0 <= j < |pages|
      ensures PageOutcome(checks(pages[j].path), pages[j].anchors) == ([], false)
    {
      QuietPage(checks(pages[j].path), pages[j].anchors);
    }
    QuietPages(checks, pages);
  }

  lemma {:induction false} QuietPage(check: string -> Option<LinkWarning>, anchors: seq<Anchor>)
    requires forall k :: 0 <= k < |anchors| ==> anchors[k].href.Some? && check(anchors[k].href.value).None?
    ensures PageOutcome(check, anchors) == ([], false)
  {
    assert FirstMissingHref(anchors) == |anchors| && anchors[..|anchors|] == anchors;
    QuietWarnings(check, anchors);
  }

  lemma {:induction false} QuietWarnings(check: string -> Option<LinkWarning>, anchors: seq<Anchor>)
    requires forall k :: 0 <= k < |anchors| ==> anchors[k].href.Some? && check(anchors[k].href.value).None?
    ensures WarningsOf(check, anchors) == []
  {
    if |anchors| > 0 {
      var init := anchors[..|anchors| - 1];
      assert forall k :: 0 <= k < |init| ==> init[k] == anchors[k];
      QuietWarnings(check, init);
    }
  }

  lemma {:induction false} QuietPages(checks: PageChecks, pages: seq<SitePage>)
    requires forall j :: 0 <= j < |pages| ==> PageOutcome(checks(pages[j].path), pages[j].anchors) == ([], false)
    ensures RunPages(checks, pages) == ([], false)
  {
    if |pages| > 0 {
      var init := pages[..|pages| - 1];
      assert forall k :: 0 <= k < |init| ==> init[k] == pages[k];
      QuietPages(checks, init);
      var p := pages[|pages| - 1];
      assert PageOutcome(checks(p.path), p.anchors) == ([], false);
      var lines: seq<Line> := [];
      assert Flush(p.path, []) == lines && lines + lines == lines;
    }
  }
}
