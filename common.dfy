// Shared vocabulary: optional values, the outcome of a JavaScript call that
// may throw, and the string predicates the source's regular expressions and
// `startsWith`/`endsWith` calls reduce to.
module Common {

  datatype Option<+T> = None | Some(value: T)

  /** What a JavaScript call does: it returns a value or throws an error. */
  datatype Completion<+T, +E> = Returned(value: T) | Threw(error: E)

  /** `s.startsWith(p)`. */
  predicate StartsWith(s: string, p: string)
  {
    |p| <= |s| && s[..|p|] == p
  }

  /** `s.endsWith(p)`. */
  predicate EndsWith(s: string, p: string)
  {
    |p| <= |s| && s[|s| - |p|..] == p
  }

  /** `s.replace(/^p/, "")` for a literal `p`. */
  function StripPrefix(s: string, p: string): (r: string)
    ensures StartsWith(s, p) ==> p + r == s
    ensures !StartsWith(s, p) ==> r == s
  {
    if StartsWith(s, p) then s[|p|..] else s
  }

  /** `s.replace(/p$/, "")` for a literal `p`. */
  function StripSuffix(s: string, p: string): (r: string)
    ensures EndsWith(s, p) ==> r + p == s
    ensures !EndsWith(s, p) ==> r == s
  {
    if EndsWith(s, p) then s[..|s| - |p|] else s
  }

  /**
   * The characters a regular-expression `.` does not match: JavaScript's
   * line terminators LF, CR, LINE SEPARATOR and PARAGRAPH SEPARATOR.
   */
  predicate IsLineTerminator(c: char)
  {
    c == '\n' || c == '\r' || c == '\U{2028}' || c == '\U{2029}'
  }

  /** `s` matches `.*` entirely. */
  predicate NoLineTerminator(s: string)
  {
    forall i :: 0 <= i < |s| ==> !IsLineTerminator(s[i])
  }

  /** `parts.join(sep)`. */
  function Join(parts: seq<string>, sep: string): string
  {
    if |parts| == 0 then ""
    else if |parts| == 1 then parts[0]
    else parts[0] + sep + Join(parts[1..], sep)
  }

  /** The decimal spelling JavaScript gives a non-negative integer. */
  function NatToString(n: nat): (r: string)
    ensures |r| >= 1
    ensures forall i :: 0 <= i < |r| ==> '0' <= r[i] <= '9'
  {
    if n < 10 then [DigitChar(n)] else NatToString(n / 10) + [DigitChar(n % 10)]
  }

  function DigitChar(d: nat): (c: char)
    requires d < 10
    ensures '0' <= c <= '9'
  {
    ['0', '1', '2', '3', '4', '5', '6', '7', '8', '9'][d]
  }

  /** JavaScript's `a < b` on strings: code-unit-wise lexicographic order. */
  predicate LexLess(a: string, b: string)
  {
    if |a| == 0 then |b| > 0
    else if |b| == 0 then false
    else if a[0] != b[0] then a[0] < b[0]
    else LexLess(a[1..], b[1..])
  }

  /** String `<` is transitive. */
  lemma {:induction false} LexLessTransitive(a: string, b: string, c: string)
    requires LexLess(a, b) && LexLess(b, c)
    ensures LexLess(a, c)
  {
    if |a| > 0 && |b| > 0 && |c| > 0 && a[0] == b[0] && b[0] == c[0] {
      LexLessTransitive(a[1..], b[1..], c[1..]);
    }
  }

  /** String `<` is irreflexive. */
  lemma {:induction false} LexLessIrreflexive(a: string)
    ensures !LexLess(a, a)
  {
    if |a| > 0 {
      LexLessIrreflexive(a[1..]);
    }
  }

  /** `set.add(x)` on a JavaScript Set, kept as its insertion-ordered contents. */
  function SetAdd<T(==)>(s: seq<T>, x: T): (r: seq<T>)
    ensures x in r
    ensures x in s ==> r == s
    ensures x !in s ==> r == s + [x]
  {
    if x in s then s else s + [x]
  }

  /** A JavaScript Set never holds an element twice. */
  predicate NoDuplicates<T(==)>(s: seq<T>)
  {
    forall i, j :: 0 <= i < j < |s| ==> s[i] != s[j]
  }

  lemma SetAddKeepsNoDuplicates<T>(s: seq<T>, x: T)
    requires NoDuplicates(s)
    ensures NoDuplicates(SetAdd(s, x))
  {
  }

  /**
   * `classList.add(...xs)`: a DOMTokenList gains each token in turn and
   * holds it once, so a repeated token is added only the first time.
   */
  function SetAddAll<T(==)>(s: seq<T>, xs: seq<T>): (r: seq<T>)
    ensures forall i :: 0 <= i < |xs| ==> xs[i] in r
    ensures forall i :: 0 <= i < |r| ==> r[i] in s || r[i] in xs
    ensures NoDuplicates(s) ==> NoDuplicates(r)
    ensures |r| <= |s| + |xs|
    ensures |s| <= |r| && r[..|s|] == s
    decreases |xs|
  {
    if xs == [] then s
    else
      var r := SetAddAll(SetAdd(s, xs[0]), xs[1..]);
      assert forall i :: 1 <= i < |xs| ==> xs[i] == xs[1..][i - 1];
      assert r[..|s|] == SetAdd(s, xs[0])[..|s|];
      r
  }

  /** Tokens that are already distinct are added as they are, in order. */
  lemma {:induction false} SetAddAllDistinct<T>(s: seq<T>, xs: seq<T>)
    requires NoDuplicates(s + xs)
    ensures SetAddAll(s, xs) == s + xs
    decreases |xs|
  {
    if xs != [] {
      forall i | 0 <= i < |s|
        ensures s[i] != xs[0]
      {
        assert (s + xs)[i] == s[i] && (s + xs)[|s|] == xs[0];
      }
      assert s + xs == (s + [xs[0]]) + xs[1..];
      SetAddAllDistinct(s + [xs[0]], xs[1..]);
    }
  }

  /** A repeated token is held once: adding "a" twice gives one "a". */
  lemma SetAddAllCollapses<T>(x: T)
    ensures SetAddAll([], [x, x]) == [x]
  {
    assert SetAdd([], x) == [x];
    assert [x, x][1..] == [x];
  }
}
