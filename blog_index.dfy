// The blog-index target (`src/target/BlogIndexTarget.ts`): the layout is
// titled "Justin's Blog", and its main element gets that heading and then
// one entry per published blog post, the most recently published first.
module BlogIndex {
  import opened Common
  import S = Service

  /** A page's metadata, as the index reads it. */
  datatype Metadata = Metadata(title: string, published: Option<string>, descriptionHTML: Option<string>)

  /** An entry of the pages record: a page path and its data. */
  datatype Entry = Entry(path: string, metadata: Metadata)

  /** A selected page, spread into one object with its path; its publication date is known to be there. */
  datatype Post = Post(path: string, title: string, published: string, descriptionHTML: Option<string>)

  const BlogTitle := "Justin's Blog"

  /** The filter: a page under "/blog" that has been published. */
  predicate IsPost(e: Entry)
  {
    StartsWith(e.path, "/blog") && e.metadata.published.Some?
  }

  function PostOf(e: Entry): Post
    requires IsPost(e)
  {
    Post(e.path, e.metadata.title, e.metadata.published.value, e.metadata.descriptionHTML)
  }

  /** `filter` then `map`: the posts, in the record's order. */
  function Selected(entries: seq<Entry>): (r: seq<Post>)
    ensures |r| <= |entries|
  {
    if |entries| == 0 then []
    else
      var e := entries[|entries| - 1];
      Selected(entries[..|entries| - 1]) + (if IsPost(e) then [PostOf(e)] else [])
  }

  /** A post is selected exactly when it comes from an entry under "/blog" that was published. */
  lemma {:induction false} SelectedIff(entries: seq<Entry>, p: Post)
    ensures p in Selected(entries) <==> exists k :: 0 <= k < |entries| && IsPost(entries[k]) && PostOf(entries[k]) == p
  {
    if |entries| > 0 {
      var init := entries[..|entries| - 1];
      SelectedIff(init, p);
      assert forall k :: 0 <= k < |init| ==> init[k] == entries[k];
    }
  }

  /** Ascending by publication date: no post is published after a later one. */
  predicate Ascending(s: seq<Post>)
  {
    forall i, j :: 0 <= i < j < |s| ==> !LexLess(s[j].published, s[i].published)
  }

  /** Descending by publication date: no post is published before a later one. */
  predicate Descending(s: seq<Post>)
  {
    forall i, j :: 0 <= i < j < |s| ==> !LexLess(s[i].published, s[j].published)
  }

  /** One post put into an ascending list, before the first post published after it. */
  function Insert(x: Post, s: seq<Post>): (r: seq<Post>)
    ensures multiset(r) == multiset(s) + multiset{x}
    ensures |r| == |s| + 1
  {
    if |s| == 0 then [x]
    else if LexLess(x.published, s[0].published) then [x] + s
    else
      assert s == [s[0]] + s[1..];
      [s[0]] + Insert(x, s[1..])
  }

  lemma {:induction false} InsertAscending(x: Post, s: seq<Post>)
    requires Ascending(s)
    ensures Ascending(Insert(x, s))
  {
    if |s| > 0 {
      if LexLess(x.published, s[0].published) {
        forall j | 0 < j < |s| + 1
          ensures !LexLess(([x] + s)[j].published, x.published)
        {
          if LexLess(s[j - 1].published, x.published) {
            LexLessTransitive(s[j - 1].published, x.published, s[0].published);
            if j - 1 == 0 {
              LexLessIrreflexive(s[0].published);
            }
          }
        }
      } else {
        InsertAscending(x, s[1..]);
        var r := Insert(x, s[1..]);
        forall j | 0 <= j < |r|
          ensures !LexLess(r[j].published, s[0].published)
        {
          assert r[j] in multiset(s[1..]) + multiset{x};
          if r[j] != x {
            assert r[j] in s[1..];
          }
        }
      }
    }
  }

  /**
   * `sort((a, b) => (a.published < b.published ? -1 : 1))`, as a stable
   * insertion sort: ascending by publication date, the same posts.
   */
  function SortPosts(s: seq<Post>): (r: seq<Post>)
    ensures multiset(r) == multiset(s) && |r| == |s|
  {
    if |s| == 0 then [] else
      assert s == s[..|s| - 1] + [s[|s| - 1]];
      Insert(s[|s| - 1], SortPosts(s[..|s| - 1]))
  }

  lemma {:induction false} SortPostsAscending(s: seq<Post>)
    ensures Ascending(SortPosts(s))
  {
    if |s| > 0 {
      SortPostsAscending(s[..|s| - 1]);
      InsertAscending(s[|s| - 1], SortPosts(s[..|s| - 1]));
    }
  }

  /** `reverse()`. */
  function Reverse(s: seq<Post>): (r: seq<Post>)
    ensures |r| == |s| && forall k :: 0 <= k < |s| ==> r[k] == s[|s| - 1 - k]
  {
    if |s| == 0 then [] else [s[|s| - 1]] + Reverse(s[..|s| - 1])
  }

  lemma {:induction false} ReverseSameMultiset(s: seq<Post>)
    ensures multiset(Reverse(s)) == multiset(s)
  {
    if |s| > 0 {
      ReverseSameMultiset(s[..|s| - 1]);
      assert s == s[..|s| - 1] + [s[|s| - 1]];
    }
  }

  /** The posts in the order they are listed. */
  function Posts(entries: seq<Entry>): seq<Post>
  {
    Reverse(SortPosts(Selected(entries)))
  }

  /** Reversed, an ascending list is descending. */
  lemma ReverseDescending(s: seq<Post>)
    requires Ascending(s)
    ensures Descending(Reverse(s))
  {
    var r := Reverse(s);
    forall i, j | 0 <= i < j < |r|
      ensures !LexLess(r[i].published, r[j].published)
    {
      assert r[i] == s[|s| - 1 - i] && r[j] == s[|s| - 1 - j];
    }
  }

  /** The listed posts are the selected ones, each as often, the most recently published first. */
  lemma PostsOrderedPermutation(entries: seq<Entry>)
    ensures multiset(Posts(entries)) == multiset(Selected(entries))
    ensures Descending(Posts(entries))
  {
    var sorted := SortPosts(Selected(entries));
    ReverseSameMultiset(sorted);
    SortPostsAscending(Selected(entries));
    ReverseDescending(sorted);
  }

  /** A post is listed exactly when a qualifying entry gives it. */
  lemma PostsIff(entries: seq<Entry>, p: Post)
    ensures p in Posts(entries) <==> exists k :: 0 <= k < |entries| && IsPost(entries[k]) && PostOf(entries[k]) == p
  {
    PostsOrderedPermutation(entries);
    SelectedIff(entries, p);
    assert p in Posts(entries) <==> p in multiset(Posts(entries));
  }

  // ---- the page ----

  /** A paragraph of an entry: text, or the description's HTML. */
  datatype Paragraph = TextParagraph(text: string) | HtmlParagraph(html: string)

  /** A child appended to the main element. */
  datatype Element = Heading1(text: string) | PostDiv(paragraphs: seq<Paragraph>)

  /** `descriptionHTML` as a condition: present and not the empty string. */
  predicate Truthy(description: Option<string>)
  {
    description.Some? && description.value != ""
  }

  /** A post's entry: its title, its publication date, and its description when that is truthy. */
  function PostElement(p: Post): (e: Element)
    ensures e.PostDiv? && |e.paragraphs| >= 2 && e.paragraphs[0] == TextParagraph(p.title) && e.paragraphs[1] == TextParagraph(p.published)
    ensures |e.paragraphs| == 3 <==> Truthy(p.descriptionHTML)
    ensures |e.paragraphs| == 3 ==> e.paragraphs[2] == HtmlParagraph(p.descriptionHTML.value)
    ensures |e.paragraphs| <= 3
  {
    PostDiv([TextParagraph(p.title), TextParagraph(p.published)] + (if Truthy(p.descriptionHTML) then [HtmlParagraph(p.descriptionHTML.value)] else []))
  }

  /** The layout: whether it has a title element, and its main element's children, if it has one. */
  datatype Layout = Layout(hasTitle: bool, main: Option<seq<Element>>)

  /** The built page: its title and its main element's children. */
  datatype BlogPage = BlogPage(title: string, main: seq<Element>)

  /** Setting the text of a missing title element throws. */
  const NoTitleError := S.Error("Cannot set properties of null (setting 'textContent')")

  /** Appending to a missing main element throws. */
  const NoMainError := S.Error("Cannot read properties of null (reading 'appendChild')")

  /**
   * The target's build: the title is set, the heading appended to main,
   * then one entry per listed post, in order.
   */
  method BuildBlogIndex(layout: Layout, entries: seq<Entry>) returns (r: Completion<BlogPage, S.Exception>)
    ensures !layout.hasTitle ==> r == Threw(NoTitleError)
    ensures layout.hasTitle && layout.main.None? ==> r == Threw(NoMainError)
    ensures layout.hasTitle && layout.main.Some? ==>
      r.Returned? && r.value.title == BlogTitle &&
      |r.value.main| == |layout.main.value| + 1 + |Posts(entries)| &&
      r.value.main[..|layout.main.value| + 1] == layout.main.value + [Heading1(BlogTitle)] &&
      (forall k :: 0 <= k < |Posts(entries)| ==> r.value.main[|layout.main.value| + 1 + k] == PostElement(Posts(entries)[k]))
  {
    if !layout.hasTitle {
      return Threw(NoTitleError);
    }
    if layout.main.None? {
      return Threw(NoMainError);
    }
    var main := layout.main.value + [Heading1(BlogTitle)];
    var posts := Posts(entries);
    var base := |main|;
    for k := 0 to |posts|
      invariant |main| == base + k
      invariant main[..base] == layout.main.value + [Heading1(BlogTitle)]
      invariant forall j :: 0 <= j < k ==> main[base + j] == PostElement(posts[j])
    {
      main := main + [PostElement(posts[k])];
    }
    r := Returned(BlogPage(BlogTitle, main));
  }
}
