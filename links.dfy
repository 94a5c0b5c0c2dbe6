// The link rules the site passes share: which links are external, what the
// markdown-link regular expressions `^(P.*[.]md)(#.*)?$` capture for a
// literal prefix P, and the chain of replacements that turns a markdown
// file path into a page path.
module Links {
  import opened Common

  /** `href` starts with a scheme: lower-case letters, then ":". */
  predicate SchemeColon(href: string)
  {
    exists n :: 0 < n < |href| && href[n] == ':' && forall i :: 0 <= i < n ==> 'a' <= href[i] <= 'z'
  }

  lemma SchemeBeforeColon(href: string, scheme: string)
    requires |scheme| >= 2 && scheme[|scheme| - 1] == ':'
    requires forall i :: 0 <= i < |scheme| - 1 ==> 'a' <= scheme[i] <= 'z'
    ensures StartsWith(href, scheme) ==> SchemeColon(href)
  {
    if StartsWith(href, scheme) {
      assert forall i :: 0 <= i < |scheme| ==> href[i] == href[..|scheme|][i] == scheme[i];
      assert href[|scheme| - 1] == ':';
    }
  }

  /** `/^(https?|mailto):/.test(href)`. */
  predicate IsExternal(href: string): (b: bool)
    ensures b ==> SchemeColon(href)
  {
    SchemeBeforeColon(href, "http:");
    SchemeBeforeColon(href, "https:");
    SchemeBeforeColon(href, "mailto:");
    StartsWith(href, "http:") || StartsWith(href, "https:") || StartsWith(href, "mailto:")
  }

  /**
   * The first group can end at `n`: it starts with the prefix, runs at
   * least to the prefix plus ".md", ends with ".md", and what follows is
   * nothing or a "#" (the optional hash group, which runs to the end).
   */
  predicate Cut(prefix: string, href: string, n: nat)
  {
    |prefix| + 3 <= n <= |href| && StartsWith(href, prefix) && href[n - 3..n] == ".md" &&
    (n == |href| || href[n] == '#')
  }

  /** The largest place at most `n` where the first group can end. */
  function LongestCut(prefix: string, href: string, n: nat): (r: Option<nat>)
    requires n <= |href|
    ensures r.Some? ==> r.value <= n && Cut(prefix, href, r.value) && forall m :: r.value < m <= n ==> !Cut(prefix, href, m)
    ensures r.None? ==> forall m :: 0 <= m <= n ==> !Cut(prefix, href, m)
    decreases n
  {
    if Cut(prefix, href, n) then Some(n)
    else if n == 0 then None
    else LongestCut(prefix, href, n - 1)
  }

  /** The two groups: the markdown file path and the hash, "" when the hash group did not take part. */
  datatype MarkdownLink = MarkdownLink(file: string, hash: string)

  /**
   * `/^(P.*[.]md)(#.*)?$/.exec(href)`: `.` matches anything but a line
   * terminator, so the whole link must be free of them; the first group
   * is greedy, so it ends at the LAST place it can, and a hash that itself
   * contains ".md" is swallowed into the path.
   */
  function MatchMarkdownLink(prefix: string, href: string): (r: Option<MarkdownLink>)
    ensures r.Some? ==> r.value.file + r.value.hash == href && Cut(prefix, href, |r.value.file|)
    ensures r.Some? ==> r.value.hash == "" || r.value.hash[0] == '#'
  {
    if !NoLineTerminator(href) then None
    else
      match LongestCut(prefix, href, |href|)
      case None => None
      case Some(n) => Some(MarkdownLink(href[..n], href[n..]))
  }

  /**
   * The expression matches exactly when the link has no line terminator
   * and the first group can end somewhere; it then ends at the last such
   * place.
   */
  lemma MatchMarkdownLinkIff(prefix: string, href: string)
    ensures MatchMarkdownLink(prefix, href).Some? <==> NoLineTerminator(href) && exists n :: 0 <= n <= |href| && Cut(prefix, href, n)
    ensures MatchMarkdownLink(prefix, href).Some? ==> forall m :: |MatchMarkdownLink(prefix, href).value.file| < m <= |href| ==> !Cut(prefix, href, m)
  {
    if NoLineTerminator(href) && LongestCut(prefix, href, |href|).Some? {
      var n := LongestCut(prefix, href, |href|).value;
      assert |href[..n]| == n;
    }
  }

  /** The capture is greedy: in "/a.md#b.md" the whole link is the path and the hash is empty. */
  lemma GreedyPathSwallowsHash()
    ensures MatchMarkdownLink("/", "/a.md#b.md") == Some(MarkdownLink("/a.md#b.md", ""))
  {
    var href := "/a.md#b.md";
    assert Cut("/", href, |href|);
    assert NoLineTerminator(href) by {
      forall i | 0 <= i < |href| ensures !IsLineTerminator(href[i]) {
        assert href[i] in "/a.md#b";
      }
    }
    assert href[..|href|] == href && href[|href|..] == "";
  }

  /** A link with an ordinary hash splits at the "#". */
  lemma PathThenHash()
    ensures MatchMarkdownLink("/pages/", "/pages/a.md#x") == Some(MarkdownLink("/pages/a.md", "#x"))
  {
    var href := "/pages/a.md#x";
    assert Cut("/pages/", href, 11);
    assert NoLineTerminator(href) by {
      forall i | 0 <= i < |href| ensures !IsLineTerminator(href[i]) {
        assert href[i] in "/pages.md#x";
      }
    }
    assert !Cut("/pages/", href, 12) && !Cut("/pages/", href, 13);
    assert href[..11] == "/pages/a.md" && href[11..] == "#x";
  }

  /**
   * A link made of a markdown file and a hash with no "." splits back into
   * the two: no later place can end the first group.
   */
  lemma MatchAtFileEnd(prefix: string, file: string, hash: string)
    requires StartsWith(file, prefix) && |file| >= |prefix| + 3 && EndsWith(file, ".md")
    requires NoLineTerminator(file + hash)
    requires hash == "" || (hash[0] == '#' && forall k :: 0 <= k < |hash| ==> hash[k] != '.')
    ensures MatchMarkdownLink(prefix, file + hash) == Some(MarkdownLink(file, hash))
  {
    var href := file + hash;
    assert href[..|file|] == file && href[|file|..] == hash;
    assert href[..|prefix|] == file[..|prefix|];
    assert Cut(prefix, href, |file|) by {
      assert href[|file| - 3..|file|] == file[|file| - 3..];
    }
    forall m | |file| < m <= |href|
      ensures !Cut(prefix, href, m)
    {
      if m - 3 >= |file| {
        assert href[m - 3] == hash[m - 3 - |file|];
      } else if m - 3 == |file| - 2 {
        assert href[m - 3] == file[|file| - 2] == 'm';
      } else {
        assert href[m - 3] == file[|file| - 1] == 'd';
      }
    }
    MatchMarkdownLinkIff(prefix, href);
    var r := MatchMarkdownLink(prefix, href).value;
    assert |r.file| == |file|;
  }

  /**
   * The chain `.replace(/^[/]pages/, "").replace(/\.md$/, "")
   * .replace(/[/]index$/, "").replace(/^$/, "/")`.
   */
  function PagePathOf(file: string): (r: string)
    ensures r != ""
  {
    var p := StripSuffix(StripSuffix(StripPrefix(file, "/pages"), ".md"), "/index");
    if p == "" then "/" else p
  }

  /** The page path of "/pages" + q + ".md" is q, for a q that is neither empty nor an index. */
  lemma PagePathOfPage(q: string)
    requires q != "" && !EndsWith(q, "/index")
    ensures PagePathOf("/pages" + q + ".md") == q
  {
    var file := "/pages" + q + ".md";
    assert StartsWith(file, "/pages") && file[6..] == q + ".md";
    assert EndsWith(q + ".md", ".md") && (q + ".md")[..|q|] == q;
  }

  /** An index file names its directory: "/pages" + q + "/index.md" gives q, or "/" at the top. */
  lemma PagePathOfIndex(q: string)
    ensures PagePathOf("/pages" + q + "/index.md") == if q == "" then "/" else q
  {
    var file := "/pages" + q + "/index.md";
    assert StartsWith(file, "/pages") && file[6..] == q + "/index.md";
    var s := q + "/index.md";
    assert EndsWith(s, ".md") && s[..|s| - 3] == q + "/index";
    assert EndsWith(q + "/index", "/index") && (q + "/index")[..|q|] == q;
  }

  /** A link starting with "/" is neither external nor a bare hash. */
  lemma SlashLinkIsLocal(href: string)
    requires |href| > 0 && href[0] == '/'
    ensures !IsExternal(href) && !StartsWith(href, "#")
  {
    assert href[..1][0] == '/';
    if |href| >= 5 {
      assert href[..5][0] == '/';
    }
    if |href| >= 6 {
      assert href[..6][0] == '/';
    }
    if |href| >= 7 {
      assert href[..7][0] == '/';
    }
  }

  /** What the page-content passes do with one link's href. */
  datatype LocalLink =
    | ExternalLink
    | FragmentLink
    | Unmatched
    | RewrittenLink(href: string)

  /**
   * An external link and a link starting with "#" are left alone; any
   * other must match the markdown-link expression for the prefix, and
   * becomes the file's page path followed by the hash.
   */
  function ClassifyLink(prefix: string, href: string): (r: LocalLink)
    ensures r.ExternalLink? <==> IsExternal(href)
    ensures r.FragmentLink? <==> !IsExternal(href) && StartsWith(href, "#")
    ensures r.Unmatched? <==> !IsExternal(href) && !StartsWith(href, "#") && MatchMarkdownLink(prefix, href).None?
    ensures r.RewrittenLink? ==>
      MatchMarkdownLink(prefix, href).Some? &&
      r.href == PagePathOf(MatchMarkdownLink(prefix, href).value.file) + MatchMarkdownLink(prefix, href).value.hash
  {
    if IsExternal(href) then ExternalLink
    else if StartsWith(href, "#") then FragmentLink
    else
      match MatchMarkdownLink(prefix, href)
      case None => Unmatched
      case Some(m) => RewrittenLink(PagePathOf(m.file) + m.hash)
  }

  /**
   * A link to the markdown file of page q, with no hash or a hash free of
   * ".", is rewritten to q with that hash, under either prefix the passes
   * use.
   */
  lemma ClassifyPageLink(prefix: string, q: string, hash: string)
    requires prefix == "/pages/" || prefix == "/pages"
    requires StartsWith(q, "/") && !EndsWith(q, "/index")
    requires NoLineTerminator("/pages" + q + ".md" + hash)
    requires hash == "" || (hash[0] == '#' && forall k :: 0 <= k < |hash| ==> hash[k] != '.')
    ensures ClassifyLink(prefix, "/pages" + q + ".md" + hash) == RewrittenLink(q + hash)
  {
    var file := "/pages" + q + ".md";
    assert file[..6] == "/pages" && file[6] == q[0];
    assert StartsWith(file, prefix);
    assert EndsWith(file, ".md") by {
      assert file[|file| - 3..] == ".md";
    }
    MatchAtFileEnd(prefix, file, hash);
    PagePathOfPage(q);
    var href := file + hash;
    assert href[0] == '/';
    SlashLinkIsLocal(href);
    assert MatchMarkdownLink(prefix, href) == Some(MarkdownLink(file, hash));
    assert PagePathOf(file) == q;
  }

  // ---- the link loops over a document's anchors ----

  /** What a loop sees of an anchor: its `href` attribute, if any, and its classes. */
  datatype Anchor = Anchor(href: Option<string>, classes: seq<string>)

  /** What the loop's step does with one href: the href written back, and the warning issued. */
  datatype LinkEffect = LinkEffect(href: string, warning: Option<string>)

  /** The anchors after a link loop, its warnings, and whether it threw. */
  datatype LinksOutcome = LinksOutcome(anchors: seq<Anchor>, warnings: seq<string>, threw: bool)

  /** One anchor with an href, after the loop's step. */
  function StepAnchor(mark: seq<string> -> seq<string>, step: string -> LinkEffect, a: Anchor): (r: Anchor)
    requires a.href.Some?
    ensures r.href.Some? && r.classes == mark(a.classes)
    ensures step(a.href.value).href == a.href.value ==> r.href == a.href
  {
    Anchor(Some(step(a.href.value).href), mark(a.classes))
  }

  /** The first anchor without an href, or the number of anchors if there is none. */
  function FirstMissingHref(anchors: seq<Anchor>): (n: nat)
    ensures n <= |anchors|
    ensures forall j :: 0 <= j < n ==> anchors[j].href.Some?
    ensures n < |anchors| ==> anchors[n].href.None?
  {
    if |anchors| == 0 || anchors[0].href.None? then 0 else 1 + FirstMissingHref(anchors[1..])
  }

  /** The warnings the step issues on the anchors, in order (an anchor without an href issues none). */
  function LinkWarnings(step: string -> LinkEffect, anchors: seq<Anchor>): seq<string>
  {
    if |anchors| == 0 then []
    else
      var a := anchors[|anchors| - 1];
      var w := if a.href.Some? then step(a.href.value).warning else None;
      LinkWarnings(step, anchors[..|anchors| - 1]) + (if w.Some? then [w.value] else [])
  }

  /**
   * A link loop in document order: each anchor's classes are changed by
   * `mark`, then its href is read, and `href.startsWith` on a missing one
   * throws, ending the loop with the later anchors untouched; the anchors
   * before it get their href from `step`, and their warnings are issued.
   */
  function RunLinks(mark: seq<string> -> seq<string>, step: string -> LinkEffect, anchors: seq<Anchor>): (r: LinksOutcome)
    ensures |r.anchors| == |anchors|
  {
    var n := FirstMissingHref(anchors);
    LinksOutcome(
      seq(|anchors|, j requires 0 <= j < |anchors| =>
        if j < n then StepAnchor(mark, step, anchors[j])
        else if j == n then anchors[j].(classes := mark(anchors[j].classes))
        else anchors[j]),
      LinkWarnings(step, anchors[..n]),
      n < |anchors|)
  }

  /** The classes of anchor `j` after the loop: marked up to the first anchor without an href, later ones untouched. */
  lemma RunLinksClasses(mark: seq<string> -> seq<string>, step: string -> LinkEffect, anchors: seq<Anchor>, j: nat)
    requires j < |anchors|
    ensures RunLinks(mark, step, anchors).anchors[j].classes ==
      if j <= FirstMissingHref(anchors) then mark(anchors[j].classes) else anchors[j].classes
  {
  }

  /** The loop throws exactly when some anchor has no href, and it then issues only the warnings of the anchors before it. */
  lemma RunLinksThrowsIff(mark: seq<string> -> seq<string>, step: string -> LinkEffect, anchors: seq<Anchor>, k: nat)
    requires k < |anchors| && anchors[k].href.None?
    ensures RunLinks(mark, step, anchors).threw
    ensures RunLinks(mark, step, anchors).warnings == LinkWarnings(step, anchors[..FirstMissingHref(anchors)])
    ensures FirstMissingHref(anchors) <= k
    ensures forall j :: k < j < |anchors| ==> RunLinks(mark, step, anchors).anchors[j] == anchors[j]
  {
  }

  /** Without a missing href, every anchor is as its own step leaves it, and every warning is issued. */
  lemma RunLinksAll(mark: seq<string> -> seq<string>, step: string -> LinkEffect, anchors: seq<Anchor>)
    requires forall k :: 0 <= k < |anchors| ==> anchors[k].href.Some?
    ensures forall k :: 0 <= k < |anchors| ==> RunLinks(mark, step, anchors).anchors[k] == StepAnchor(mark, step, anchors[k])
    ensures RunLinks(mark, step, anchors).warnings == LinkWarnings(step, anchors)
    ensures !RunLinks(mark, step, anchors).threw
  {
    assert anchors[..|anchors|] == anchors;
  }

  /** No warning is issued exactly when the step warns on no anchor's href. */
  lemma {:induction false} LinkWarningsEmptyIff(step: string -> LinkEffect, anchors: seq<Anchor>)
    ensures LinkWarnings(step, anchors) == [] <==>
      forall k :: 0 <= k < |anchors| && anchors[k].href.Some? ==> step(anchors[k].href.value).warning.None?
  {
    if |anchors| > 0 {
      var init := anchors[..|anchors| - 1];
      LinkWarningsEmptyIff(step, init);
      assert forall k :: 0 <= k < |init| ==> init[k] == anchors[k];
    }
  }

  /** A link loop run in place on the anchors: the warnings, and whether it threw. */
  method RewriteAnchors(mark: seq<string> -> seq<string>, step: string -> LinkEffect, anchors: array<Anchor>) returns (warnings: seq<string>, threw: bool)
    modifies anchors
    ensures anchors[..] == RunLinks(mark, step, old(anchors[..])).anchors
    ensures warnings == RunLinks(mark, step, old(anchors[..])).warnings
    ensures threw == RunLinks(mark, step, old(anchors[..])).threw
  {
    ghost var start := anchors[..];
    warnings := [];
    var k := 0;
    while k < anchors.Length
      invariant 0 <= k <= anchors.Length
      invariant forall j :: 0 <= j < k ==> start[j].href.Some? && anchors[j] == StepAnchor(mark, step, start[j])
      invariant forall j :: k <= j < anchors.Length ==> anchors[j] == start[j]
      invariant warnings == LinkWarnings(step, start[..k])
    {
      var a := anchors[k];
      if a.href.None? {
        anchors[k] := a.(classes := mark(a.classes));
        assert FirstMissingHref(start) == k;
        assert anchors[..] == RunLinks(mark, step, start).anchors;
        return warnings, true;
      }
      var e := step(a.href.value);
      anchors[k] := Anchor(Some(e.href), mark(a.classes));
      assert start[..k + 1][..k] == start[..k];
      if e.warning.Some? {
        warnings := warnings + [e.warning.value];
      }
      k := k + 1;
    }
    assert FirstMissingHref(start) == k && start[..k] == start;
    assert anchors[..] == RunLinks(mark, step, start).anchors;
    threw := false;
  }
}
