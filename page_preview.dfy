// The page-preview target (`src/target/PagePreviewTarget.ts`): the content
// is placed in the layout with every content link marked; the title comes
// from the single h1; headings get ids from their slugs, duplicates warned;
// aside markers become elements; links to markdown files under /pages are
// rewritten to page paths; and code is told its language.
module PagePreview {
  import opened Common
  import opened Links
  import S = Service

  // ---- content links ----

  /**
   * The first loop: every anchor of the content gets the class "link";
   * its href and its other classes stay.
   */
  method MarkContentLinks(anchors: array<Anchor>)
    modifies anchors
    ensures forall k :: 0 <= k < anchors.Length ==>
      anchors[k] == old(anchors[k]).(classes := SetAdd(old(anchors[k].classes), "link"))
    ensures forall k :: 0 <= k < anchors.Length ==> "link" in anchors[k].classes
  {
    for k := 0 to anchors.Length
      invariant forall j :: 0 <= j < k ==> anchors[j] == old(anchors[j]).(classes := SetAdd(old(anchors[j].classes), "link"))
      invariant forall j :: k <= j < anchors.Length ==> anchors[j] == old(anchors[j])
    {
      anchors[k] := anchors[k].(classes := SetAdd(anchors[k].classes, "link"));
    }
  }

  // ---- headings ----

  /**
   * A heading of the page: its level (1 for h1), its text, its id, and the
   * href of the link its contents are wrapped in, if any.
   */
  datatype Heading = Heading(level: nat, text: string, id: Option<string>, link: Option<string>)

  const NoTitleWarning := "Cannot infer title because page has no <h1>"

  /** The texts of the h1s, in document order. */
  function H1Texts(headings: seq<Heading>): (r: seq<string>)
    ensures |r| <= |headings|
  {
    if |headings| == 0 then []
    else
      var last := headings[|headings| - 1];
      H1Texts(headings[..|headings| - 1]) + (if last.level == 1 then [last.text] else [])
  }

  /**
   * The title rule: a `<title>` with the h1's text when there is exactly
   * one h1, and otherwise no title and a warning.
   */
  function Title(headings: seq<Heading>): (r: (Option<string>, seq<string>))
    ensures r.0.Some? <==> |H1Texts(headings)| == 1
    ensures r.0.Some? ==> r.0.value == H1Texts(headings)[0] && r.1 == []
    ensures r.0.None? ==> r.1 == [NoTitleWarning]
  {
    var h1s := H1Texts(headings);
    if |h1s| != 1 then (None, [NoTitleWarning]) else (Some(h1s[0]), [])
  }

  /** The h1 texts are exactly the texts of the level-1 headings: none when there are none, one per h1. */
  lemma {:induction false} H1TextsOfOnly(headings: seq<Heading>, k: nat)
    requires k <= |headings|
    requires forall j :: 0 <= j < |headings| && j != k ==> headings[j].level != 1
    ensures k == |headings| || headings[k].level != 1 ==> H1Texts(headings) == []
    ensures k < |headings| && headings[k].level == 1 ==> H1Texts(headings) == [headings[k].text]
  {
    if |headings| > 0 {
      var init := headings[..|headings| - 1];
      assert forall j :: 0 <= j < |init| ==> init[j] == headings[j];
      if k == |headings| - 1 {
        H1TextsOfOnly(init, |init|);
      } else {
        H1TextsOfOnly(init, if k < |init| then k else |init|);
      }
    }
  }

  /** A page whose only h1 is heading k is titled with its text. */
  lemma TitleOfSingleH1(headings: seq<Heading>, k: nat)
    requires k < |headings| && headings[k].level == 1
    requires forall j :: 0 <= j < |headings| && j != k ==> headings[j].level != 1
    ensures Title(headings) == (Some(headings[k].text), [])
  {
    H1TextsOfOnly(headings, k);
  }

  /** A page without an h1 has no title, and warns. */
  lemma NoH1NoTitle(headings: seq<Heading>)
    requires forall j :: 0 <= j < |headings| ==> headings[j].level != 1
    ensures Title(headings) == (None, [NoTitleWarning])
  {
    H1TextsOfOnly(headings, |headings|);
  }

  /** Some heading before heading k has the same slug. */
  predicate SlugSeen(slug: string -> string, headings: seq<Heading>, k: nat)
    requires k < |headings|
  {
    exists j :: 0 <= j < k && slug(headings[j].text) == slug(headings[k].text)
  }

  /** Heading k is given its slug as id: its slug is new and it is not an h1. */
  predicate GetsId(slug: string -> string, headings: seq<Heading>, k: nat)
    requires k < |headings|
  {
    !SlugSeen(slug, headings, k) && headings[k].level != 1
  }

  /**
   * Heading k after the id loop: with a new slug and not an h1, it gets the
   * slug as id and its contents are wrapped in a link to "#" + slug; any
   * other heading is left as it is.
   */
  function Assigned(slug: string -> string, headings: seq<Heading>, k: nat): (h: Heading)
    requires k < |headings|
    ensures h.level == headings[k].level && h.text == headings[k].text
  {
    var id := slug(headings[k].text);
    if GetsId(slug, headings, k) then headings[k].(id := Some(id), link := Some("#" + id)) else headings[k]
  }

  function DuplicateIdWarning(id: string): string
  {
    "Duplicate heading id: " + id
  }

  /** The loop's warnings, in order: one per heading whose slug was seen before. */
  function DuplicateWarnings(slug: string -> string, headings: seq<Heading>): (r: seq<string>)
    ensures |r| <= |headings|
  {
    if |headings| == 0 then []
    else
      var k := |headings| - 1;
      DuplicateWarnings(slug, headings[..k]) + (if SlugSeen(slug, headings, k) then [DuplicateIdWarning(slug(headings[k].text))] else [])
  }

  /**
   * The id loop, in place: `ids` is the Set of slugs seen so far, h1s
   * included; a slug already in it warns, any other is added, and then
   * every heading but an h1 gets it as id and a link to it.
   */
  method AssignHeadingIds(slug: string -> string, headings: array<Heading>) returns (warnings: seq<string>)
    modifies headings
    ensures forall k :: 0 <= k < headings.Length ==> headings[k] == Assigned(slug, old(headings[..]), k)
    ensures warnings == DuplicateWarnings(slug, old(headings[..]))
  {
    ghost var start := headings[..];
    var ids: seq<string> := [];
    warnings := [];
    for k := 0 to headings.Length
      invariant forall j :: 0 <= j < k ==> headings[j] == Assigned(slug, start, j)
      invariant forall j :: k <= j < headings.Length ==> headings[j] == start[j]
      invariant forall x :: x in ids <==> exists j :: 0 <= j < k && slug(start[j].text) == x
      invariant warnings == DuplicateWarnings(slug, start[..k])
    {
      var h := headings[k];
      var id := slug(h.text);
      assert start[..k + 1][..k] == start[..k];
      assert forall j :: 0 <= j < k ==> start[..k + 1][j] == start[j];
      assert SlugSeen(slug, start[..k + 1], k) == SlugSeen(slug, start, k);
      if id in ids {
        warnings := warnings + [DuplicateIdWarning(id)];
      } else {
        ids := SetAdd(ids, id);
        if h.level != 1 {
          headings[k] := h.(id := Some(id), link := Some("#" + id));
        }
      }
    }
    assert start[..headings.Length] == start;
  }

  /** The ids the loop gives out are pairwise distinct. */
  lemma AssignedIdsDistinct(slug: string -> string, headings: seq<Heading>, i: nat, j: nat)
    requires i < j < |headings| && GetsId(slug, headings, i) && GetsId(slug, headings, j)
    ensures Assigned(slug, headings, i).id.Some? && Assigned(slug, headings, j).id.Some?
    ensures Assigned(slug, headings, i).id != Assigned(slug, headings, j).id
  {
  }

  /** An h1 keeps its id, but its slug is taken: a later heading with the same slug is left alone and warns. */
  lemma H1SlugIsTaken(slug: string -> string, headings: seq<Heading>, i: nat, j: nat)
    requires i < j < |headings| && headings[i].level == 1
    requires slug(headings[i].text) == slug(headings[j].text)
    ensures Assigned(slug, headings, i) == headings[i]
    ensures Assigned(slug, headings, j) == headings[j] && SlugSeen(slug, headings, j)
  {
  }

  /** The loop warns about nothing exactly when the headings' slugs are pairwise distinct. */
  lemma {:induction false} NoDuplicateWarningsIff(slug: string -> string, headings: seq<Heading>)
    ensures DuplicateWarnings(slug, headings) == [] <==>
      forall i, j :: 0 <= i < j < |headings| ==> slug(headings[i].text) != slug(headings[j].text)
  {
    if |headings| > 0 {
      var k := |headings| - 1;
      var init := headings[..k];
      NoDuplicateWarningsIff(slug, init);
      assert forall j :: 0 <= j < k ==> init[j] == headings[j];
      if DuplicateWarnings(slug, headings) == [] {
        assert !SlugSeen(slug, headings, k);
      }
    }
  }

  // ---- aside markers ----

  /** `s.split(".")`: the pieces between the dots, at least one. */
  function SplitDots(s: string): (r: seq<string>)
    ensures |r| >= 1
    ensures forall k, i :: 0 <= k < |r| && 0 <= i < |r[k]| ==> r[k][i] != '.'
  {
    if |s| == 0 then [""]
    else
      var rest := SplitDots(s[1..]);
      if s[0] == '.' then [""] + rest
      else [[s[0]] + rest[0]] + rest[1..]
  }

  lemma JoinCons(c: char, first: string, rest: seq<string>)
    ensures Join([[c] + first] + rest, ".") == [c] + Join([first] + rest, ".")
  {
    if |rest| > 0 {
      assert ([[c] + first] + rest)[1..] == rest && ([first] + rest)[1..] == rest;
    }
  }

  /** Joined again with ".", the pieces give back the marker. */
  lemma {:induction false} JoinSplitDots(s: string)
    ensures Join(SplitDots(s), ".") == s
  {
    if |s| > 0 {
      var rest := SplitDots(s[1..]);
      JoinSplitDots(s[1..]);
      if s[0] == '.' {
        assert ([""] + rest)[1..] == rest;
        assert s == "." + s[1..];
      } else {
        assert rest == [rest[0]] + rest[1..];
        JoinCons(s[0], rest[0], rest[1..]);
        assert s == [s[0]] + s[1..];
      }
    }
  }

  /** Pieces free of "." joined with "." split back into the same pieces. */
  lemma {:induction false} SplitDotsJoin(parts: seq<string>)
    requires |parts| >= 1
    requires forall k, i :: 0 <= k < |parts| && 0 <= i < |parts[k]| ==> parts[k][i] != '.'
    ensures SplitDots(Join(parts, ".")) == parts
    decreases |parts|, |parts[0]|
  {
    var first := parts[0];
    if |first| > 0 {
      var shorter := [first[1..]] + parts[1..];
      assert forall k :: 1 <= k < |parts| ==> shorter[k] == parts[k];
      SplitDotsJoin(shorter);
      JoinCons(first[0], first[1..], parts[1..]);
      assert [first[0]] + first[1..] == first && [first] + parts[1..] == parts;
      var s := Join(parts, ".");
      assert s[1..] == Join(shorter, ".");
    } else if |parts| > 1 {
      SplitDotsJoin(parts[1..]);
      var s := Join(parts, ".");
      assert s == "." + Join(parts[1..], ".");
      assert s[1..] == Join(parts[1..], ".");
      assert [""] + parts[1..] == parts;
    }
  }

  /** An aside marker's element: the first piece is the tag name, the rest are the classes, each held once. */
  datatype AsideElement = AsideElement(tagName: string, classes: seq<string>)

  function AsideOf(marker: string): (r: AsideElement)
    ensures r.tagName == SplitDots(marker)[0]
    ensures NoDuplicates(r.classes)
    ensures forall k :: 1 <= k < |SplitDots(marker)| ==> SplitDots(marker)[k] in r.classes
    ensures forall k :: 0 <= k < |r.classes| ==> r.classes[k] in SplitDots(marker)[1..]
  {
    var pieces := SplitDots(marker);
    assert forall k :: 1 <= k < |pieces| ==> pieces[k] == pieces[1..][k - 1];
    AsideElement(pieces[0], SetAddAll([], pieces[1..]))
  }

  /** When its classes are distinct, a marker is spelled back by its element. */
  lemma AsideSpelledBack(marker: string)
    requires NoDuplicates(SplitDots(marker)[1..])
    ensures Join([AsideOf(marker).tagName] + AsideOf(marker).classes, ".") == marker
  {
    JoinSplitDots(marker);
    var pieces := SplitDots(marker);
    assert [] + pieces[1..] == pieces[1..];
    SetAddAllDistinct([], pieces[1..]);
    assert [pieces[0]] + pieces[1..] == pieces;
  }

  /**
   * A tag name and dot-free classes come back from their marker, each class
   * once; distinct classes come back exactly. A repeated class is held once
   * (SetAddAllCollapses).
   */
  lemma AsideRoundTrip(tagName: string, classes: seq<string>)
    requires forall k, i :: 0 <= k < |classes| && 0 <= i < |classes[k]| ==> classes[k][i] != '.'
    requires forall i :: 0 <= i < |tagName| ==> tagName[i] != '.'
    ensures AsideOf(Join([tagName] + classes, ".")) == AsideElement(tagName, SetAddAll([], classes))
    ensures NoDuplicates(classes) ==> AsideOf(Join([tagName] + classes, ".")) == AsideElement(tagName, classes)
  {
    var parts := [tagName] + classes;
    assert forall k :: 1 <= k < |parts| ==> parts[k] == classes[k - 1];
    SplitDotsJoin(parts);
    assert parts[1..] == classes;
    if NoDuplicates(classes) {
      assert [] + classes == classes;
      SetAddAllDistinct([], classes);
    }
  }

  // ---- links ----

  /** The source of this pass's `markdownLinkRegex`, which does not require a "/" after "/pages". */
  const PreviewLinkRegex := "/^([/]pages.*[.]md)(#.*)?$/"

  /** `warn("Link does not match regex:", { href, markdownLinkRegex })`, as a line. */
  function PreviewMismatchWarning(href: string): string
  {
    "Link does not match regex: { href: '" + href + "', markdownLinkRegex: " + PreviewLinkRegex + " }"
  }

  /** What reading a missing `href` does: `null.startsWith` throws a TypeError. */
  const NullHrefError := S.Error("Cannot read properties of null (reading 'startsWith')")

  /** The pass's step for one href: rewritten under "/pages", or kept, with a warning if it does not match. */
  function PreviewLinkStep(href: string): (r: LinkEffect)
    ensures ClassifyLink("/pages", href).RewrittenLink? ==> r.href == ClassifyLink("/pages", href).href
    ensures !ClassifyLink("/pages", href).RewrittenLink? ==> r.href == href
    ensures r.warning.Some? <==> ClassifyLink("/pages", href).Unmatched?
    ensures r.warning.Some? ==> r.warning.value == PreviewMismatchWarning(href)
  {
    match ClassifyLink("/pages", href)
    case RewrittenLink(h) => LinkEffect(h, None)
    case Unmatched => LinkEffect(href, Some(PreviewMismatchWarning(href)))
    case _ => LinkEffect(href, None)
  }

  /** This loop's treatment of an anchor's classes: none. */
  function KeepClasses(classes: seq<string>): seq<string>
  {
    classes
  }

  /**
   * The link loop over "main a", in place: each href goes through
   * `PreviewLinkStep`; an anchor without an href throws a TypeError, and
   * the loop ends there.
   */
  method RewritePreviewLinks(anchors: array<Anchor>) returns (warnings: seq<string>, r: Completion<(), S.Exception>)
    modifies anchors
    ensures anchors[..] == RunLinks(KeepClasses, PreviewLinkStep, old(anchors[..])).anchors
    ensures warnings == RunLinks(KeepClasses, PreviewLinkStep, old(anchors[..])).warnings
    ensures r == (if RunLinks(KeepClasses, PreviewLinkStep, old(anchors[..])).threw then Threw(NullHrefError) else Returned(()))
    ensures forall k :: 0 <= k < anchors.Length ==> anchors[k].classes == old(anchors[k].classes)
  {
    ghost var start := anchors[..];
    var threw;
    warnings, threw := RewriteAnchors(KeepClasses, PreviewLinkStep, anchors);
    r := if threw then Threw(NullHrefError) else Returned(());
    forall k | 0 <= k < anchors.Length
      ensures anchors[k].classes == start[k].classes
    {
      assert anchors[..][k] == RunLinks(KeepClasses, PreviewLinkStep, start).anchors[k];
      RunLinksClasses(KeepClasses, PreviewLinkStep, start, k);
    }
  }

  /** A link to the markdown file of page q is rewritten to q, hash kept. */
  lemma PreviewRewritesPageLink(q: string, hash: string)
    requires StartsWith(q, "/") && !EndsWith(q, "/index")
    requires NoLineTerminator("/pages" + q + ".md" + hash)
    requires hash == "" || (hash[0] == '#' && forall k :: 0 <= k < |hash| ==> hash[k] != '.')
    ensures PreviewLinkStep("/pages" + q + ".md" + hash) == LinkEffect(q + hash, None)
  {
    ClassifyPageLink("/pages", q, hash);
  }

  // ---- code ----

  /** A `code` element: whether its parent is not a `pre`, its text, and its classes. */
  datatype Code = Code(inline: bool, text: string, classes: seq<string>)

  /** The index of the first space of `s` at or after `from`, or |s|. */
  function FirstSpace(s: string, from: nat): (n: nat)
    requires from <= |s|
    ensures from <= n <= |s| && (n < |s| ==> s[n] == ' ')
    ensures forall i :: from <= i < n ==> s[i] != ' '
    decreases |s| - from
  {
    if from == |s| || s[from] == ' ' then from else FirstSpace(s, from + 1)
  }

  /**
   * `/^!([^ ]+) (.*)$/` on inline code: "!", then the run of non-spaces up
   * to the first space (the language, not empty), that space, and the
   * rest (the content), which must hold no line terminator.
   */
  function InlineLanguage(text: string): (r: Option<(string, string)>)
    ensures r.Some? ==> text == "!" + r.value.0 + " " + r.value.1 && |r.value.0| > 0
    ensures r.Some? ==> (forall i :: 0 <= i < |r.value.0| ==> r.value.0[i] != ' ') && NoLineTerminator(r.value.1)
  {
    if |text| == 0 || text[0] != '!' then None
    else
      var n := FirstSpace(text, 1);
      if n == 1 || n == |text| || !NoLineTerminator(text[n + 1..]) then None
      else Some((text[1..n], text[n + 1..]))
  }

  /** The inline form reads a language and content exactly when the text is "!" + language + " " + content. */
  lemma InlineLanguageIff(text: string, language: string, content: string)
    ensures InlineLanguage(text) == Some((language, content)) <==>
      text == "!" + language + " " + content && |language| > 0 &&
      (forall i :: 0 <= i < |language| ==> language[i] != ' ') && NoLineTerminator(content)
  {
    if text == "!" + language + " " + content && |language| > 0 &&
      (forall i :: 0 <= i < |language| ==> language[i] != ' ') && NoLineTerminator(content) {
      assert text[1 + |language|] == ' ';
      assert forall i :: 1 <= i < 1 + |language| ==> text[i] == language[i - 1];
      assert FirstSpace(text, 1) == 1 + |language|;
      assert text[1..1 + |language|] == language && text[2 + |language|..] == content;
    }
    if InlineLanguage(text) == Some((language, content)) {
      var n := FirstSpace(text, 1);
      assert text == [text[0]] + text[1..n] + [text[n]] + text[n + 1..];
    }
  }

  /** The classes starting "language-", without that prefix, in order. */
  function Languages(classes: seq<string>): (r: seq<string>)
    ensures |r| <= |classes|
  {
    if |classes| == 0 then []
    else
      var c := classes[|classes| - 1];
      Languages(classes[..|classes| - 1]) + (if StartsWith(c, "language-") then [c[9..]] else [])
  }

  /** Block code: exactly one "language-" class names the language, and the content is the whole text. */
  function BlockLanguage(text: string, classes: seq<string>): (r: Option<(string, string)>)
    ensures r.Some? <==> |Languages(classes)| == 1
    ensures r.Some? ==> "language-" + r.value.0 in classes && r.value.1 == text
  {
    var languages := Languages(classes);
    if |languages| != 1 then None
    else
      LanguageFromClass(classes);
      Some((languages[0], text))
  }

  /** Every language read is a class with "language-" in front of it. */
  lemma {:induction false} LanguageFromClass(classes: seq<string>)
    ensures forall k :: 0 <= k < |Languages(classes)| ==> "language-" + Languages(classes)[k] in classes
  {
    if |classes| > 0 {
      var init := classes[..|classes| - 1];
      LanguageFromClass(init);
      var c := classes[|classes| - 1];
      if StartsWith(c, "language-") {
        assert "language-" + c[9..] == c;
      }
      assert forall x :: x in init ==> x in classes;
    }
  }

  /** The language and content the code loop highlights a `code` element with, if any. */
  function CodeLanguage(code: Code): (r: Option<(string, string)>)
    ensures code.inline ==> r == InlineLanguage(code.text)
    ensures !code.inline ==> r == BlockLanguage(code.text, code.classes)
  {
    if code.inline then InlineLanguage(code.text) else BlockLanguage(code.text, code.classes)
  }

  /** The highlight calls the code loop makes, in document order: one per `code` element with a language. */
  function HighlightCallsOf(codes: seq<Code>): (r: seq<(string, string)>)
    ensures |r| <= |codes|
  {
    if |codes| == 0 then []
    else
      var c := CodeLanguage(codes[|codes| - 1]);
      HighlightCallsOf(codes[..|codes| - 1]) + (if c.Some? then [c.value] else [])
  }

  /** The code loop: each element without a language is skipped, the others are highlighted with theirs. */
  method HighlightCalls(codes: seq<Code>) returns (calls: seq<(string, string)>)
    ensures calls == HighlightCallsOf(codes)
  {
    calls := [];
    for k := 0 to |codes|
      invariant calls == HighlightCallsOf(codes[..k])
    {
      assert codes[..k + 1][..k] == codes[..k];
      var c := CodeLanguage(codes[k]);
      if c.Some? {
        calls := calls + [c.value];
      }
    }
    assert codes[..|codes|] == codes;
  }

  /** A page whose code elements all lack a language makes no highlight call. */
  lemma {:induction false} NoLanguageNoCalls(codes: seq<Code>)
    requires forall k :: 0 <= k < |codes| ==> CodeLanguage(codes[k]).None?
    ensures HighlightCallsOf(codes) == []
  {
    if |codes| > 0 {
      var init := codes[..|codes| - 1];
      assert forall k :: 0 <= k < |init| ==> init[k] == codes[k];
      NoLanguageNoCalls(init);
    }
  }
}
