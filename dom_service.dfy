// The page-content service (`src/services/dom.ts`): every link is given the
// class "link" and links to markdown files under /pages/ are rewritten to
// page paths; h2 to h6 are wrapped in links to their slugs; and a
// blockquote opened by a code span holding a selector such as
// `aside.note#top` is replaced by an element built from that selector.
module DomService {
  import opened Common
  import opened Links
  import S = Service

  /** The service's id; it is pure. */
  const ServiceId := "PreprocessPageContent"

  /** The source of `markdownLinkRegex`, as it appears in the warning. */
  const MarkdownLinkRegex := "/^([/]pages[/].*[.]md)(#.*)?$/"

  /** What reading a missing `href` does: `null.startsWith` throws a TypeError. */
  const NullHrefError := S.Error("Cannot read properties of null (reading 'startsWith')")

  function LinkMismatchWarning(href: string): string
  {
    "Link " + S.Quoted(href) + " does not match regex " + MarkdownLinkRegex
  }

  /** The service's step for one href: rewritten under "/pages/", or kept, with a warning if it does not match. */
  function LinkStep(href: string): (r: LinkEffect)
    ensures ClassifyLink("/pages/", href).RewrittenLink? ==> r.href == ClassifyLink("/pages/", href).href
    ensures !ClassifyLink("/pages/", href).RewrittenLink? ==> r.href == href
    ensures r.warning.Some? <==> ClassifyLink("/pages/", href).Unmatched?
    ensures r.warning.Some? ==> r.warning.value == LinkMismatchWarning(href)
  {
    match ClassifyLink("/pages/", href)
    case RewrittenLink(h) => LinkEffect(h, None)
    case Unmatched => LinkEffect(href, Some(LinkMismatchWarning(href)))
    case _ => LinkEffect(href, None)
  }

  /** `a.classList.add("link")`, which the loop does first, before it reads the href. */
  function AddLinkClass(classes: seq<string>): (r: seq<string>)
    ensures "link" in r && multiset(classes) <= multiset(r)
  {
    SetAdd(classes, "link")
  }

  /**
   * The service's link loop on the document's anchors, in place: each gets
   * the class "link" and its href from `LinkStep`; an anchor without an
   * href throws a TypeError, and the loop ends there.
   */
  method RewriteLinks(anchors: array<Anchor>) returns (warnings: seq<string>, r: Completion<(), S.Exception>)
    modifies anchors
    ensures anchors[..] == RunLinks(AddLinkClass, LinkStep, old(anchors[..])).anchors
    ensures warnings == RunLinks(AddLinkClass, LinkStep, old(anchors[..])).warnings
    ensures r == (if RunLinks(AddLinkClass, LinkStep, old(anchors[..])).threw then Threw(NullHrefError) else Returned(()))
  {
    var threw;
    warnings, threw := RewriteAnchors(AddLinkClass, LinkStep, anchors);
    r := if threw then Threw(NullHrefError) else Returned(());
  }

  /** Every link ends with the class "link" when every anchor has an href. */
  lemma EveryLinkGetsItsClass(anchors: seq<Anchor>, k: nat)
    requires k < |anchors| && forall j :: 0 <= j < |anchors| ==> anchors[j].href.Some?
    ensures "link" in RunLinks(AddLinkClass, LinkStep, anchors).anchors[k].classes
  {
    RunLinksAll(AddLinkClass, LinkStep, anchors);
  }

  /** The link h2 to h6 are wrapped in: "#" followed by the slug of the heading's text. */
  function HeadingLinkHref(slug: string -> string, text: string): string
  {
    "#" + slug(text)
  }

  // ---- blockquote selectors ----

  predicate IsLetter(c: char)
  {
    'A' <= c <= 'Z' || 'a' <= c <= 'z'
  }

  /** `[A-Za-z0-9_-]`. */
  predicate IsIdentChar(c: char)
  {
    IsLetter(c) || '0' <= c <= '9' || c == '_' || c == '-'
  }

  /** The length of the longest run of identifier characters at the start of `s`. */
  function IdentRun(s: string): (n: nat)
    ensures n <= |s|
    ensures forall k :: 0 <= k < n ==> IsIdentChar(s[k])
    ensures n < |s| ==> !IsIdentChar(s[n])
  {
    if |s| > 0 && IsIdentChar(s[0]) then 1 + IdentRun(s[1..]) else 0
  }

  /** One piece of a selector: `name`, `#name` or `.name`. */
  datatype Token = TagToken(name: string) | IdToken(name: string) | ClassToken(name: string)

  /**
   * The three expressions `^([A-Za-z][A-Za-z0-9_-]*)(.*)$`, `^#(…)(.*)$`
   * and `^[.](…)(.*)$`, tried in that order: the identifier is the longest
   * run, and the rest must hold no line terminator for `(.*)$` to match.
   */
  function NextToken(s: string): (r: Option<(Token, string)>)
    ensures r.Some? ==> |r.value.1| < |s|
  {
    if !NoLineTerminator(s) || |s| == 0 then None
    else if IsLetter(s[0]) then
      var n := IdentRun(s);
      Some((TagToken(s[..n]), s[n..]))
    else if |s| > 1 && s[0] == '#' && IsLetter(s[1]) then
      var n := 1 + IdentRun(s[1..]);
      Some((IdToken(s[1..n]), s[n..]))
    else if |s| > 1 && s[0] == '.' && IsLetter(s[1]) then
      var n := 1 + IdentRun(s[1..]);
      Some((ClassToken(s[1..n]), s[n..]))
    else None
  }

  /**
   * A token can be read exactly when the selector has no line terminator
   * and starts with a letter, or with "#" or "." and a letter; what is
   * left is what follows the token's name.
   */
  lemma NextTokenIff(s: string)
    ensures NextToken(s).Some? <==>
      (NoLineTerminator(s) && |s| > 0 && (IsLetter(s[0]) || (|s| > 1 && (s[0] == '#' || s[0] == '.') && IsLetter(s[1]))))
    ensures NextToken(s).Some? ==> var (t, rest) := NextToken(s).value;
      IsIdent(t.name) && s == Spell(t) + rest && (rest == "" || !IsIdentChar(rest[0]))
  {
    if NextToken(s).Some? {
      var (t, rest) := NextToken(s).value;
      if IsLetter(s[0]) {
        assert s == s[..IdentRun(s)] + s[IdentRun(s)..];
      } else {
        var n := 1 + IdentRun(s[1..]);
        assert s[1..n][0] == s[1];
        assert forall k :: 0 <= k < n - 1 ==> s[1..n][k] == s[1..][k];
        assert n < |s| ==> s[n] == s[1..][n - 1];
        assert s == [s[0]] + s[1..n] + s[n..];
      }
    }
  }

  /** The tokens read before the loop stops, and whether it consumed the whole selector. */
  function Lex(s: string): (r: (seq<Token>, bool))
    ensures |r.0| <= |s|
    ensures r.1 ==> SpellAll(r.0) == s
    decreases |s|
  {
    if |s| == 0 then ([], true)
    else
      match NextToken(s)
      case None => ([], false)
      case Some((t, rest)) =>
        NextTokenIff(s);
        var more := Lex(rest);
        assert ([t] + more.0)[1..] == more.0;
        ([t] + more.0, more.1)
  }

  /** The tag name: that of the last tag token, if any. */
  function TagOf(tokens: seq<Token>): (r: Option<string>)
    ensures r.Some? ==> exists k :: 0 <= k < |tokens| && tokens[k] == TagToken(r.value)
  {
    if |tokens| == 0 then None
    else if tokens[|tokens| - 1].TagToken? then Some(tokens[|tokens| - 1].name)
    else TagOf(tokens[..|tokens| - 1])
  }

  /** The ids, in order. */
  function IdsOf(tokens: seq<Token>): (r: seq<string>)
    ensures |r| <= |tokens|
  {
    if |tokens| == 0 then []
    else
      var last := tokens[|tokens| - 1];
      IdsOf(tokens[..|tokens| - 1]) + (if last.IdToken? then [last.name] else [])
  }

  /** The classes, in order. */
  function ClassesOf(tokens: seq<Token>): (r: seq<string>)
    ensures |r| <= |tokens|
  {
    if |tokens| == 0 then []
    else
      var last := tokens[|tokens| - 1];
      ClassesOf(tokens[..|tokens| - 1]) + (if last.ClassToken? then [last.name] else [])
  }

  function ParseFailedWarning(selector: string): string
  {
    "Failed to parse selector: " + S.Quoted(selector)
  }

  /** What the selector loop leaves: the tag name, ids and classes, and its warnings. */
  datatype Parsed = Parsed(tagName: Option<string>, ids: seq<string>, classes: seq<string>, warnings: seq<string>)

  /** The loop's result, from the tokens it read. */
  function ParseOf(selector: string): (p: Parsed)
    ensures p.warnings == [] <==> Lex(selector).1
    ensures p.warnings != [] ==> p.warnings == [ParseFailedWarning(selector)]
    ensures p.tagName.Some? ==> exists k :: 0 <= k < |Lex(selector).0| && Lex(selector).0[k] == TagToken(p.tagName.value)
  {
    var (tokens, ok) := Lex(selector);
    Parsed(TagOf(tokens), IdsOf(tokens), ClassesOf(tokens), if ok then [] else [ParseFailedWarning(selector)])
  }

  /**
   * The selector loop: `while (unparsed)` tries the three expressions and
   * records what matched (the last tag name wins), or warns and stops.
   */
  method ParseSelector(selector: string) returns (p: Parsed)
    ensures p == ParseOf(selector)
  {
    var tagName: Option<string> := None;
    var ids: seq<string> := [];
    var classes: seq<string> := [];
    var unparsed := selector;
    ghost var read: seq<Token> := [];
    assert [] + Lex(selector).0 == Lex(selector).0;
    while unparsed != ""
      invariant Lex(selector) == (read + Lex(unparsed).0, Lex(unparsed).1)
      invariant tagName == TagOf(read) && ids == IdsOf(read) && classes == ClassesOf(read)
      decreases |unparsed|
    {
      var next := NextToken(unparsed);
      if next.None? {
        ParseStops(selector, read, unparsed);
        return Parsed(tagName, ids, classes, [ParseFailedWarning(selector)]);
      }
      var (t, rest) := next.value;
      ParseStep(selector, read, unparsed);
      SummaryStep(read, t);
      if t.TagToken? {
        tagName := Some(t.name);
      } else if t.IdToken? {
        ids := ids + [t.name];
      } else {
        classes := classes + [t.name];
      }
      read := read + [t];
      unparsed := rest;
    }
    assert read + [] == read;
    p := Parsed(tagName, ids, classes, []);
  }

  /** One turn of the selector loop: the token read is added to what was read. */
  lemma ParseStep(selector: string, read: seq<Token>, unparsed: string)
    requires unparsed != "" && NextToken(unparsed).Some?
    requires Lex(selector) == (read + Lex(unparsed).0, Lex(unparsed).1)
    ensures var (t, rest) := NextToken(unparsed).value;
      Lex(selector) == ((read + [t]) + Lex(rest).0, Lex(rest).1)
  {
    var (t, rest) := NextToken(unparsed).value;
    assert Lex(unparsed) == ([t] + Lex(rest).0, Lex(rest).1);
    assert read + ([t] + Lex(rest).0) == (read + [t]) + Lex(rest).0;
  }

  /** Reading one more token updates the tag name, the ids or the classes. */
  lemma SummaryStep(read: seq<Token>, t: Token)
    ensures TagOf(read + [t]) == (if t.TagToken? then Some(t.name) else TagOf(read))
    ensures IdsOf(read + [t]) == IdsOf(read) + (if t.IdToken? then [t.name] else [])
    ensures ClassesOf(read + [t]) == ClassesOf(read) + (if t.ClassToken? then [t.name] else [])
  {
    assert (read + [t])[..|read|] == read;
  }

  /** The selector loop stops where no token can be read: the tokens so far are all it reads. */
  lemma ParseStops(selector: string, read: seq<Token>, unparsed: string)
    requires unparsed != "" && NextToken(unparsed).None?
    requires Lex(selector) == (read + Lex(unparsed).0, Lex(unparsed).1)
    ensures Lex(selector) == (read, false)
  {
    assert read + [] == read;
  }

  /** What becomes of the blockquote. */
  datatype Replacement = Unchanged | Replaced(tagName: string, classes: seq<string>, id: Option<string>)

  function NoTagWarning(selector: string): string
  {
    "No tag name in selector: " + S.Quoted(selector)
  }

  function MultipleIdsWarning(selector: string): string
  {
    "Multiple ids in selector: " + S.Quoted(selector)
  }

  /**
   * After the loop: with no tag name the blockquote is left as it is and
   * a warning is issued; otherwise it becomes an element with that tag and
   * the classes, each held once by its class list, and the id when there is
   * exactly one (more than one warns).
   */
  function Blockquote(selector: string): (r: (Replacement, seq<string>))
    ensures var p := ParseOf(selector);
      (r.0.Unchanged? <==> p.tagName.None?) &&
      (r.0.Replaced? ==>
        r.0.tagName == p.tagName.value &&
        (r.0.id.Some? <==> |p.ids| == 1) && (r.0.id.Some? ==> r.0.id.value == p.ids[0]))
    ensures var p := ParseOf(selector);
      r.0.Replaced? ==>
        NoDuplicates(r.0.classes) &&
        (forall k :: 0 <= k < |p.classes| ==> p.classes[k] in r.0.classes) &&
        (forall k :: 0 <= k < |r.0.classes| ==> r.0.classes[k] in p.classes)
    ensures var p := ParseOf(selector);
      r.1 == p.warnings + (if p.tagName.None? then [NoTagWarning(selector)]
        else if |p.ids| > 1 then [MultipleIdsWarning(selector)] else [])
  {
    var p := ParseOf(selector);
    var classes := SetAddAll([], p.classes);
    if p.tagName.None? then (Unchanged, p.warnings + [NoTagWarning(selector)])
    else if |p.ids| == 0 then (Replaced(p.tagName.value, classes, None), p.warnings)
    else if |p.ids| == 1 then (Replaced(p.tagName.value, classes, Some(p.ids[0])), p.warnings)
    else (Replaced(p.tagName.value, classes, None), p.warnings + [MultipleIdsWarning(selector)])
  }

  /** Distinct classes reach the element as they were written, in order. */
  lemma BlockquoteDistinctClasses(selector: string)
    requires ParseOf(selector).tagName.Some?
    requires NoDuplicates(ParseOf(selector).classes)
    ensures Blockquote(selector).0.classes == ParseOf(selector).classes
  {
    var c := ParseOf(selector).classes;
    assert [] + c == c;
    SetAddAllDistinct([], c);
  }

  // ---- selectors written from tokens read back ----

  /** A name the identifier expression reads whole. */
  predicate IsIdent(name: string)
  {
    |name| > 0 && IsLetter(name[0]) && forall k :: 0 <= k < |name| ==> IsIdentChar(name[k])
  }

  function Spell(t: Token): string
  {
    match t
    case TagToken(name) => name
    case IdToken(name) => "#" + name
    case ClassToken(name) => "." + name
  }

  function SpellAll(tokens: seq<Token>): string
  {
    if |tokens| == 0 then "" else Spell(tokens[0]) + SpellAll(tokens[1..])
  }

  /** Tokens whose names are identifiers, a tag token only first (a later one would run into the name before it). */
  predicate WellFormed(tokens: seq<Token>)
  {
    (forall k :: 0 <= k < |tokens| ==> IsIdent(tokens[k].name)) &&
    (forall k :: 0 < k < |tokens| ==> !tokens[k].TagToken?)
  }

  lemma SpellAllNoLineTerminator(tokens: seq<Token>)
    requires WellFormed(tokens)
    ensures NoLineTerminator(SpellAll(tokens))
    ensures |SpellAll(tokens)| > 0 ==> !IsIdentChar(SpellAll(tokens)[0]) || tokens[0].TagToken?
  {
    if |tokens| > 0 {
      assert WellFormed(tokens[1..]);
      SpellAllNoLineTerminator(tokens[1..]);
      var s := Spell(tokens[0]);
      assert forall k :: 0 <= k < |s| ==> !IsLineTerminator(s[k]) by {
        forall k | 0 <= k < |s| ensures !IsLineTerminator(s[k]) {
          if !tokens[0].TagToken? && k > 0 {
            assert s[k] == tokens[0].name[k - 1];
          }
        }
      }
    }
  }

  /** The identifier run of a name followed by what cannot continue it is the name. */
  lemma {:induction false} IdentRunOfName(name: string, rest: string)
    requires forall k :: 0 <= k < |name| ==> IsIdentChar(name[k])
    requires |rest| == 0 || !IsIdentChar(rest[0])
    ensures IdentRun(name + rest) == |name|
  {
    if |name| > 0 {
      assert (name + rest)[1..] == name[1..] + rest;
      IdentRunOfName(name[1..], rest);
    } else {
      assert name + rest == rest;
    }
  }

  /** A token written out, followed by what cannot continue its name, is read back. */
  lemma NextTokenOfSpelled(t: Token, rest: string)
    requires IsIdent(t.name) && (|rest| == 0 || !IsIdentChar(rest[0]))
    requires NoLineTerminator(Spell(t) + rest)
    ensures NextToken(Spell(t) + rest) == Some((t, rest))
  {
    var s := Spell(t) + rest;
    var name := t.name;
    IdentRunOfName(name, rest);
    if t.TagToken? {
      assert s == name + rest;
      assert s[..|name|] == name && s[|name|..] == rest;
    } else {
      assert s[1..] == name + rest;
      assert s[1..1 + |name|] == name && s[1 + |name|..] == rest;
    }
  }

  /** Written out and read back, well-formed tokens come back whole. */
  lemma {:induction false} LexSpelled(tokens: seq<Token>)
    requires WellFormed(tokens)
    ensures Lex(SpellAll(tokens)) == (tokens, true)
  {
    if |tokens| > 0 {
      var t := tokens[0];
      var rest := SpellAll(tokens[1..]);
      assert WellFormed(tokens[1..]);
      SpellAllNoLineTerminator(tokens);
      SpellAllNoLineTerminator(tokens[1..]);
      assert |rest| == 0 || !IsIdentChar(rest[0]) by {
        if |rest| > 0 {
          assert !tokens[1].TagToken?;
        }
      }
      assert SpellAll(tokens) == Spell(t) + rest;
      NextTokenOfSpelled(t, rest);
      LexSpelled(tokens[1..]);
      assert [t] + tokens[1..] == tokens;
    }
  }

  /** The tokens of "aside.note#top", written out. */
  lemma AsideTokensSpelled()
    ensures SpellAll([TagToken("aside"), ClassToken("note"), IdToken("top")]) == "aside.note#top"
  {
    var tokens := [TagToken("aside"), ClassToken("note"), IdToken("top")];
    assert tokens[1..][1..] == [IdToken("top")] && tokens[1..][1..][1..] == [];
    assert SpellAll(tokens[1..][1..]) == "#top";
    assert SpellAll(tokens[1..]) == ".note#top";
  }

  /** What the selector loop keeps of the tokens of "aside.note#top". */
  lemma AsideTokensRead()
    ensures var tokens := [TagToken("aside"), ClassToken("note"), IdToken("top")];
      TagOf(tokens) == Some("aside") && IdsOf(tokens) == ["top"] && ClassesOf(tokens) == ["note"]
  {
    var tokens := [TagToken("aside"), ClassToken("note"), IdToken("top")];
    assert tokens[..2][..1] == [TagToken("aside")] && tokens[..2] == [TagToken("aside"), ClassToken("note")];
    assert TagOf(tokens) == Some("aside");
    assert IdsOf(tokens) == ["top"];
  }

  /** "aside.note#top" gives an aside with class note and id top, and no warning. */
  lemma AsideWithClassAndId()
    ensures Blockquote("aside.note#top") == (Replaced("aside", ["note"], Some("top")), [])
  {
    var tokens := [TagToken("aside"), ClassToken("note"), IdToken("top")];
    assert IsIdent("aside") && IsIdent("note") && IsIdent("top");
    LexSpelled(tokens);
    AsideTokensSpelled();
    AsideTokensRead();
  }
}
